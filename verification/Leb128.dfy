/**
 LEB128 integers: the encoders as loops over a byte array, and the integer grammar of section 5.2.2
 of the WebAssembly Core Specification 2.0 as decoders. Shifts by seven and masks with 0x7F are
 written as division by 128 and its remainder; division rounds down, as an arithmetic shift does.
 */
module Leb128 {
  import opened Ints

  const MAX_ULEB32: nat := 5
  const MAX_ULEB64: nat := 10
  const MAX_SLEB32: nat := 5
  const MAX_SLEB64: nat := 10
  const MAX_SLEB33: nat := 5

  function Pow2(n: nat): (p: int)
    ensures p >= 1
  {
    if n == 0 then 1 else 2 * Pow2(n - 1)
  }

  lemma Pow2Seven(n: nat)
    requires n >= 7
    ensures Pow2(n) == 128 * Pow2(n - 7)
  {
    assert Pow2(n - 5) == 4 * Pow2(n - 7);
    assert Pow2(n - 3) == 4 * Pow2(n - 5);
    assert Pow2(n - 1) == 4 * Pow2(n - 3);
  }

  lemma Pow2Small(n: nat)
    ensures n <= 6 ==> Pow2(n) <= 64
    ensures n <= 7 ==> Pow2(n) <= 128
  {
    if n <= 7 {
      Pow2Seven(7);
      Pow2Monotone(n, 7);
      if n <= 6 {
        Pow2Monotone(n, 6);
      }
    }
  }

  lemma {:induction false} Pow2Monotone(m: nat, n: nat)
    requires m <= n
    ensures Pow2(m) <= Pow2(n)
    decreases n - m
  {
    if m < n {
      Pow2Monotone(m, n - 1);
    }
  }

  /* Encodings as byte sequences. */

  function ULEB(v: nat): (r: seq<byte>)
    ensures |r| >= 1
  {
    if v < 128 then [v] else [v % 128 + 128] + ULEB(v / 128)
  }

  function SLEB(v: int): (r: seq<byte>)
    ensures |r| >= 1
    decreases if v < 0 then -v else v
  {
    if -64 <= v < 64 then [v % 128] else [v % 128 + 128] + SLEB(v / 128)
  }

  /* The grammar of section 5.2.2, with the number of bits n as a parameter. The result carries the
     value and the bytes after it. A last byte is only restricted when fewer than seven bits are left. */

  function DecodeU(n: nat, bs: seq<byte>): (r: Option<(nat, seq<byte>)>)
    ensures r.Some? ==> |r.value.1| < |bs|
    decreases |bs|
  {
    if bs == [] then None
    else if bs[0] < 128 then (if n >= 7 || bs[0] < Pow2(n) then Some((bs[0], bs[1..])) else None)
    else if n <= 7 then None
    else
      match DecodeU(n - 7, bs[1..])
      case None => None
      case Some((m, rest)) => Some((128 * m + (bs[0] - 128), rest))
  }

  function DecodeS(n: nat, bs: seq<byte>): (r: Option<(int, seq<byte>)>)
    requires n >= 1
    ensures r.Some? ==> |r.value.1| < |bs|
    decreases |bs|
  {
    if bs == [] then None
    else if bs[0] < 64 then (if n >= 7 || bs[0] < Pow2(n - 1) then Some((bs[0], bs[1..])) else None)
    else if bs[0] < 128 then
      (if n >= 7 || bs[0] as int >= 128 - Pow2(n - 1) then Some((bs[0] as int - 128, bs[1..])) else None)
    else if n <= 7 then None
    else
      match DecodeS(n - 7, bs[1..])
      case None => None
      case Some((m, rest)) => Some((128 * m + (bs[0] - 128), rest))
  }

  // Decoding recovers the value and stops exactly at the end of its encoding, whatever follows.
  lemma {:induction false} RoundTripU(n: nat, v: nat, rest: seq<byte>)
    requires v < Pow2(n)
    ensures DecodeU(n, ULEB(v) + rest) == Some((v, rest))
    decreases n
  {
    var bs := ULEB(v) + rest;
    if v < 128 {
      assert bs[1..] == rest;
    } else {
      Pow2Small(n);
      Pow2Seven(n);
      assert bs[1..] == ULEB(v / 128) + rest;
      RoundTripU(n - 7, v / 128, rest);
    }
  }

  // A value of more bits is not decoded at all.
  lemma {:induction false} TooWideU(n: nat, v: nat, rest: seq<byte>)
    requires v >= Pow2(n)
    ensures DecodeU(n, ULEB(v) + rest).None?
    decreases n
  {
    var bs := ULEB(v) + rest;
    if v < 128 {
      if n >= 7 {
        Pow2Monotone(7, n);
        Pow2Seven(7);
      }
    } else if n > 7 {
      Pow2Seven(n);
      assert bs[1..] == ULEB(v / 128) + rest;
      TooWideU(n - 7, v / 128, rest);
    }
  }

  lemma {:induction false} RoundTripS(n: nat, v: int, rest: seq<byte>)
    requires n >= 1 && -Pow2(n - 1) <= v < Pow2(n - 1)
    ensures DecodeS(n, SLEB(v) + rest) == Some((v, rest))
    decreases n
  {
    var bs := SLEB(v) + rest;
    if -64 <= v < 64 {
      assert bs[1..] == rest;
    } else {
      Pow2Small(n - 1);
      Pow2Seven(n - 1);
      assert bs[1..] == SLEB(v / 128) + rest;
      RoundTripS(n - 7, v / 128, rest);
    }
  }

  // An n-bit value takes at most ceil(n / 7) bytes.
  lemma {:induction false} LengthU(n: nat, v: nat)
    requires n >= 1 && v < Pow2(n)
    ensures |ULEB(v)| <= (n + 6) / 7
    decreases n
  {
    if v >= 128 {
      Pow2Small(n);
      Pow2Seven(n);
      LengthU(n - 7, v / 128);
    }
  }

  lemma {:induction false} LengthS(n: nat, v: int)
    requires n >= 1 && -Pow2(n - 1) <= v < Pow2(n - 1)
    ensures |SLEB(v)| <= (n + 6) / 7
    decreases n
  {
    if !(-64 <= v < 64) {
      Pow2Small(n - 1);
      Pow2Seven(n - 1);
      LengthS(n - 7, v / 128);
    }
  }

  // No byte sequence of the grammar that stands for the value is shorter.
  lemma {:induction false} ShortestU(n: nat, bs: seq<byte>)
    requires DecodeU(n, bs).Some?
    ensures |ULEB(DecodeU(n, bs).value.0)| <= |bs| - |DecodeU(n, bs).value.1|
    decreases n
  {
    if bs[0] >= 128 {
      ShortestU(n - 7, bs[1..]);
    }
  }

  lemma {:induction false} ShortestS(n: nat, bs: seq<byte>)
    requires n >= 1 && DecodeS(n, bs).Some?
    ensures |SLEB(DecodeS(n, bs).value.0)| <= |bs| - |DecodeS(n, bs).value.1|
    decreases n
  {
    if bs[0] >= 128 {
      ShortestS(n - 7, bs[1..]);
      var m := DecodeS(n - 7, bs[1..]).value.0;
      assert (128 * m + (bs[0] - 128)) / 128 == m;
    }
  }

  lemma Pow2Values()
    ensures Pow2(31) == 0x8000_0000 && Pow2(32) == 0x1_0000_0000
    ensures Pow2(63) == 0x8000_0000_0000_0000 && Pow2(64) == 0x1_0000_0000_0000_0000
  {
    Pow2Seven(10);
    assert Pow2(3) == 8;
    Pow2Seven(17);
    Pow2Seven(24);
    Pow2Seven(31);
    assert Pow2(32) == 2 * Pow2(31);
    Pow2Seven(39);
    Pow2Seven(46);
    Pow2Seven(53);
    Pow2Seven(60);
    assert Pow2(63) == 8 * Pow2(60);
  }

  // The reserved lengths suffice for every value of each width.
  lemma FitsU32(v: u32)
    ensures |ULEB(v)| <= 5 == MAX_ULEB32
  {
    Pow2Values();
    LengthU(32, v);
  }

  lemma FitsU64(v: u64)
    ensures |ULEB(v)| <= 10 == MAX_ULEB64
  {
    Pow2Values();
    LengthU(64, v);
  }

  lemma FitsI32(v: i32)
    ensures |SLEB(v)| <= 5 == MAX_SLEB32
  {
    Pow2Values();
    LengthS(32, v);
  }

  lemma FitsI64(v: i64)
    ensures |SLEB(v)| <= 10 == MAX_SLEB64
  {
    Pow2Values();
    LengthS(64, v);
  }

  // A type index written as a signed 33-bit value.
  lemma FitsIndexS33(v: u32)
    ensures |SLEB(v)| <= 5 == MAX_SLEB33
  {
    Pow2Values();
    LengthS(33, v);
  }

  /* The encoders. */

  // Bytes from `at` on become `bs`; everything else stays.
  twostate predicate Wrote(dst: array<byte>, at: nat, bs: seq<byte>)
    requires at + |bs| <= dst.Length
    reads dst
  {
    dst[..] == old(dst[..at]) + bs + old(dst[at + |bs|..])
  }

  method PutByte(dst: array<byte>, at: nat, v: byte) returns (end: nat)
    requires at < dst.Length
    modifies dst
    ensures end == at + 1 && Wrote(dst, at, [v])
  {
    dst[at] := v;
    end := at + 1;
  }

  // Writing the next byte moves it from what is left to what is done.
  lemma NextGroup(bs: seq<byte>, end: nat, left: seq<byte>, rest: seq<byte>)
    requires end < |bs| && left != []
    ensures bs[end := left[0]][..end + 1] + left[1..] + rest == bs[..end] + left + rest
  {
    assert bs[end := left[0]][..end + 1] == bs[..end] + [left[0]];
    assert left == [left[0]] + left[1..];
  }

  method PutULEB(dst: array<byte>, at: nat, value: u64) returns (end: nat)
    requires at + |ULEB(value)| <= dst.Length
    modifies dst
    ensures end == at + |ULEB(value)| && Wrote(dst, at, ULEB(value))
  {
    var v: nat := value;
    end := at;
    if v < 0x80 {
      dst[end] := v;
      end := end + 1;
      return;
    }
    ghost var left := ULEB(value);
    ghost var stop := at + |left|;
    ghost var rest := dst[stop..];
    var more := true;
    while more
      invariant at <= end && end + |left| == stop
      invariant left == if more then ULEB(v) else []
      invariant dst[..end] + left + rest == old(dst[..at]) + ULEB(value) + rest
      invariant dst[stop..] == rest
      decreases more, v
    {
      NextGroup(dst[..], end, left, rest);
      left := left[1..];
      var byte := v % 128;
      v := v / 128;
      if v != 0 {
        byte := byte + 128;
      }
      dst[end] := byte;
      end := end + 1;
      more := v != 0;
    }
  }

  method PutSLEB(dst: array<byte>, at: nat, value: i64) returns (end: nat)
    requires at + |SLEB(value)| <= dst.Length
    modifies dst
    ensures end == at + |SLEB(value)| && Wrote(dst, at, SLEB(value))
  {
    var v: int := value;
    end := at;
    if -64 <= v < 64 {
      dst[end] := v % 128;
      end := end + 1;
      return;
    }
    ghost var left := SLEB(value);
    ghost var stop := at + |left|;
    ghost var rest := dst[stop..];
    while true
      invariant at <= end && end + |left| == stop && left == SLEB(v)
      invariant dst[..end] + left + rest == old(dst[..at]) + SLEB(value) + rest
      invariant dst[stop..] == rest
      decreases if v < 0 then -v else v
    {
      NextGroup(dst[..], end, left, rest);
      left := left[1..];
      var byte := v % 128;
      v := v / 128;
      var signBit := byte >= 64;
      if (v == 0 && !signBit) || (v == -1 && signBit) {
        dst[end] := byte;
        end := end + 1;
        return;
      }
      dst[end] := byte + 128;
      end := end + 1;
    }
  }

  // Length of the encoding, by the loop the assembler sizes sections with.
  method SizeULEB(value: u64) returns (n: nat)
    ensures n == |ULEB(value)|
  {
    var v: nat := value;
    n := 1;
    while v >= 0x80
      invariant n - 1 + |ULEB(v)| == |ULEB(value)|
    {
      v := v / 128;
      n := n + 1;
    }
  }

  method SizeSLEB(value: i64) returns (n: nat)
    ensures n == |SLEB(value)|
  {
    var v: int := value;
    n := 1;
    while true
      invariant n - 1 + |SLEB(v)| == |SLEB(value)|
      decreases if v < 0 then -v else v
    {
      var byte := v % 128;
      v := v / 128;
      var signBit := byte >= 64;
      if (v == 0 && !signBit) || (v == -1 && signBit) {
        return;
      }
      n := n + 1;
    }
  }
}
