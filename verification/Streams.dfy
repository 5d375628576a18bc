/**
 Byte streams: numbers are little-endian, strings carry their length in sixteen bits.
 */
module Streams {
  import opened Arithmetic

  type Byte = n: nat | n < 256

  /** `v` in `width` bytes, lowest first; higher bits are cut off. */
  function Le(v: nat, width: nat): (b: seq<Byte>)
    ensures |b| == width
  {
    if width == 0 then [] else [v % 256] + Le(v / 256, width - 1)
  }

  function Un(b: seq<Byte>): nat {
    if b == [] then 0 else b[0] + 256 * Un(b[1..])
  }

  /** The number of values of so many bytes. */
  function Span(width: nat): (n: nat)
    ensures n > 0
  {
    if width == 0 then 1 else 256 * Span(width - 1)
  }

  /** What fits comes back. */
  lemma {:induction false} UnLe(v: nat, width: nat)
    requires v < Span(width)
    ensures Un(Le(v, width)) == v
  {
    if width > 0 {
      UnLe(v / 256, width - 1);
      assert Le(v, width)[1..] == Le(v / 256, width - 1);
    }
  }

  /** The conversion of a wider or negative number to an unsigned one of `width` bytes. */
  function Cast(v: int, width: nat): (n: nat)
    ensures n < Span(width)
  {
    v % Span(width)
  }

  /** An unsigned number of `width` bytes taken as a signed one. */
  function Signed(n: nat, width: nat): int {
    if 2 * n >= Span(width) then n - Span(width) else n
  }

  lemma Spans()
    ensures Span(1) == 0x100 && Span(2) == 0x1_0000 && Span(4) == 0x1_0000_0000 && Span(8) == 0x1_0000_0000_0000_0000
  {
    assert Span(3) == 0x100_0000;
    assert Span(6) == 0x1_0000_0000_0000;
    assert Span(7) == 0x100_0000_0000_0000;
  }

  lemma Regroup(a: seq<Byte>, b: seq<Byte>, c: seq<Byte>)
    ensures a + b + c == a + (b + c)
  {
  }

  // ----- strings -----

  /** A string that is too long is written as the empty one. */
  function StringBytes(s: seq<Byte>): seq<Byte> {
    if |s| > 0xFFFF then Le(0, 2) else Le(|s|, 2) + s
  }

  datatype Taken<+T> = Short | Got(value: T, rest: seq<Byte>)

  function TakeNumber(b: seq<Byte>, width: nat): (t: Taken<nat>)
    ensures t.Got? ==> |t.rest| + width == |b|
  {
    if |b| < width then Short else Got(Un(b[..width]), b[width..])
  }

  function TakeString(b: seq<Byte>): (t: Taken<seq<Byte>>)
    ensures t.Got? ==> |t.rest| + |t.value| + 2 == |b|
  {
    match TakeNumber(b, 2)
    case Short => Short
    case Got(n, rest) => if |rest| < n then Short else Got(rest[..n], rest[n..])
  }

  lemma NumberBack(v: int, width: nat, rest: seq<Byte>)
    ensures TakeNumber(Le(Cast(v, width), width) + rest, width) == Got(Cast(v, width), rest)
  {
    var b := Le(Cast(v, width), width);
    UnLe(Cast(v, width), width);
    assert (b + rest)[..width] == b && (b + rest)[width..] == rest;
  }

  lemma NumberReads(v: nat, width: nat, rest: seq<Byte>)
    requires v < Span(width)
    ensures TakeNumber(Le(v, width) + rest, width) == Got(v, rest)
  {
    UnLe(v, width);
    assert (Le(v, width) + rest)[..width] == Le(v, width) && (Le(v, width) + rest)[width..] == rest;
  }

  lemma StringReads(s: seq<Byte>, rest: seq<Byte>)
    ensures TakeString(StringBytes(s) + rest) == Got(if |s| > 0xFFFF then [] else s, rest)
  {
    Spans();
    if |s| > 0xFFFF {
      NumberReads(0, 2, rest);
    } else {
      NumberReads(|s|, 2, s + rest);
      assert Le(|s|, 2) + s + rest == Le(|s|, 2) + (s + rest);
    }
  }

  // ----- the streams of the program -----

  class PropWriteStream {
    var buffer: seq<Byte>

    constructor ()
      ensures buffer == []
    {
      buffer := [];
    }

    /** The bytes of the number are copied one after the other. */
    method Write(add: nat, width: nat)
      modifies this
      ensures buffer == old(buffer) + Le(add, width)
    {
      var left, k := add, 0;
      while k < width
        invariant k <= width && buffer + Le(left, width - k) == old(buffer) + Le(add, width)
      {
        assert Le(left, width - k) == [left % 256] + Le(left / 256, width - k - 1);
        assert buffer + [left % 256] + Le(left / 256, width - k - 1) == buffer + Le(left, width - k);
        buffer := buffer + [left % 256];
        left, k := left / 256, k + 1;
      }
    }

    method WriteString(str: seq<Byte>)
      modifies this
      ensures buffer == old(buffer) + StringBytes(str)
    {
      if |str| > 0xFFFF {
        Write(0, 2);
        return;
      }
      Write(|str|, 2);
      buffer := buffer + str;
    }
  }

  class PropStream {
    const bytes: seq<Byte>
    var p: nat

    ghost predicate Valid()
      reads this
    {
      p <= |bytes|
    }

    /** What has not been read yet. */
    ghost function Rest(): seq<Byte>
      requires Valid()
      reads this
    {
      bytes[p..]
    }

    constructor (bytes: seq<Byte>)
      ensures Valid() && Rest() == bytes
    {
      this.bytes, p := bytes, 0;
    }

    method Size() returns (n: nat)
      requires Valid()
      ensures n == |Rest()|
    {
      n := |bytes| - p;
    }

    /** Nothing is consumed if there are too few bytes. */
    method Read(width: nat) returns (ok: bool, ret: nat)
      requires Valid()
      modifies this`p
      ensures Valid() && ok == TakeNumber(old(Rest()), width).Got?
      ensures if ok then TakeNumber(old(Rest()), width) == Got(ret, Rest()) else Rest() == old(Rest())
    {
      var size := Size();
      if size < width {
        return false, 0;
      }
      ret := 0;
      var k: nat := width;
      while k > 0
        invariant k <= width && ret == Un(bytes[p + k..p + width])
      {
        k := k - 1;
        assert bytes[p + k..p + width][1..] == bytes[p + k + 1..p + width];
        ret := bytes[p + k] + 256 * ret;
      }
      assert Rest()[..width] == bytes[p..p + width] && Rest()[width..] == bytes[p + width..];
      p := p + width;
      ok := true;
    }

    /** A string that is cut short leaves its length consumed. */
    method ReadString() returns (ok: bool, ret: seq<Byte>)
      requires Valid()
      modifies this`p
      ensures Valid() && ok == TakeString(old(Rest())).Got?
      ensures ok ==> TakeString(old(Rest())) == Got(ret, Rest())
      ensures !ok ==> Rest() == if |old(Rest())| < 2 then old(Rest()) else old(Rest())[2..]
    {
      var strLen;
      ok, strLen := Read(2);
      ret := [];
      if ok {
        var size := Size();
        ok := strLen <= size;
        if ok {
          ret := bytes[p..p + strLen];
          assert Rest()[..strLen] == ret && Rest()[strLen..] == bytes[p + strLen..];
          p := p + strLen;
        }
      }
    }

    method Skip(n: nat) returns (ok: bool)
      requires Valid()
      modifies this`p
      ensures Valid() && ok == (n <= |old(Rest())|)
      ensures Rest() == if ok then old(Rest())[n..] else old(Rest())
    {
      var size := Size();
      ok := n <= size;
      if ok {
        p := p + n;
      }
    }
  }
}
