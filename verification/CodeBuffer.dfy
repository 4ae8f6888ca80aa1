/**
 The growable byte buffer: geometric growth, then unchecked writes through a cursor. It refines a
 byte sequence, and the ghost counters account for every growth.
 */
module Buffers {
  import opened Ints
  import opened Leb128

  // The capacity of the first allocation.
  const INITIAL_CAPACITY: nat := 64

  function Max(a: int, b: int): int {
    if a < b then b else a
  }

  // A little-endian fixed-width value of n bytes.
  function LittleEndian(v: nat, n: nat): (r: seq<byte>)
    ensures |r| == n
  {
    if n == 0 then [] else [v % 256] + LittleEndian(v / 256, n - 1)
  }

  class CodeBuffer {
    var data: array<byte>
    var size: nat
    var capacity: nat

    // The largest capacity ever asked for, how often the buffer grew, and the bytes those growths moved.
    ghost var requested: nat
    ghost var growths: nat
    ghost var moved: nat

    ghost predicate Valid()
      reads this
    {
      && data.Length == capacity && size <= capacity
      && (capacity == 0 || 64 <= capacity) && capacity <= Max(64, 2 * requested)
      && (if capacity == 0 then moved == 0 && growths == 0 else moved < capacity && growths >= 1)
    }

    function Contents(): (s: seq<byte>)
      requires size <= data.Length
      reads this, data
    {
      data[..size]
    }

    constructor ()
      ensures Valid() && fresh(data) && Contents() == []
      ensures capacity == 0 && requested == 0 && growths == 0 && moved == 0
    {
      data := new byte[0];
      size, capacity := 0, 0;
      requested, growths, moved := 0, 0, 0;
    }

    // Nothing but the reservation changed.
    twostate predicate Kept()
      requires old(size <= data.Length)
      reads this, data
    {
      && Valid() && size == old(size) && Contents() == old(Contents())
      && (data == old(data) || fresh(data)) && capacity >= old(capacity)
    }

    // The contents grew by bs at the end.
    twostate predicate Appended(bs: seq<byte>)
      requires old(size <= data.Length)
      reads this, data
    {
      && Valid() && Contents() == old(Contents()) + bs
      && (data == old(data) || fresh(data)) && capacity >= old(capacity)
    }

    // What a request for n bytes of capacity costs.
    twostate predicate Charged(n: nat)
      reads this
    {
      && requested == Max(old(requested), n)
      && growths == (if n > old(capacity) then old(growths) + 1 else old(growths))
      && moved == (if n > old(capacity) then old(moved) + old(capacity) else old(moved))
      && capacity == (if n <= old(capacity) then old(capacity)
                      else Max(if old(capacity) != 0 then 2 * old(capacity) else 64, n))
    }

    method GrowTo(min: nat)
      requires Valid() && min > capacity
      modifies this
      ensures Kept() && Charged(min) && fresh(data)
    {
      var cap := if capacity != 0 then capacity * 2 else INITIAL_CAPACITY;
      if cap < min {
        cap := min;
      }
      var p := new byte[cap];
      forall i | 0 <= i < size {
        p[i] := data[i];
      }
      requested, growths, moved := Max(requested, min), growths + 1, moved + capacity;
      data := p;
      capacity := cap;
    }

    method Reserve(n: nat)
      requires Valid()
      modifies this
      ensures Kept() && Charged(n) && capacity >= n
    {
      if n > capacity {
        GrowTo(n);
      } else {
        requested := Max(requested, n);
      }
    }

    // Drops the contents and keeps the allocation.
    method Reset()
      requires Valid()
      modifies this
      ensures Valid() && Contents() == [] && data == old(data) && capacity == old(capacity)
      ensures requested == old(requested) && growths == old(growths) && moved == old(moved)
    {
      size := 0;
    }

    method Ensure(n: nat)
      requires Valid()
      modifies this
      ensures Kept() && Charged(old(size) + n) && size + n <= capacity
    {
      if size + n > capacity {
        GrowTo(size + n);
      } else {
        requested := Max(requested, size + n);
      }
    }

    /* The cursor protocol: reserve, write with the encoders, commit the end. */

    method CursorEnsure(n: nat) returns (p: nat)
      requires Valid()
      modifies this
      ensures Kept() && Charged(old(size) + n) && p == size && p + n <= data.Length
    {
      Ensure(n);
      p := size;
    }

    method SetEnd(p: nat)
      requires Valid() && p <= data.Length
      modifies `size
      ensures Valid() && size == p && Contents() == data[..p]
    {
      size := p;
    }

    method PutU8Unchecked(v: byte)
      requires Valid() && size < capacity
      modifies `size, data
      ensures Appended([v])
    {
      data[size] := v;
      size := size + 1;
    }

    method PutBytesUnchecked(bytes: seq<byte>)
      requires Valid() && size + |bytes| <= capacity
      modifies `size, data
      ensures Appended(bytes)
    {
      forall i | 0 <= i < |bytes| {
        data[size + i] := bytes[i];
      }
      size := size + |bytes|;
      assert data[..size] == old(data[..size]) + bytes;
    }

    /* Checked appends. */

    method PutU8(v: byte)
      requires Valid()
      modifies this, data
      ensures Appended([v]) && Charged(old(size) + 1)
    {
      Ensure(1);
      PutU8Unchecked(v);
    }

    method PutULEB(v: u64)
      requires Valid()
      modifies this, data
      ensures Appended(ULEB(v)) && Charged(old(size) + 10)
    {
      FitsU64(v);
      Ensure(MAX_ULEB64);
      var end := Leb128.PutULEB(data, size, v);
      size := end;
    }

    method PutSLEB(v: i64)
      requires Valid()
      modifies this, data
      ensures Appended(SLEB(v)) && Charged(old(size) + 10)
    {
      FitsI64(v);
      Ensure(MAX_SLEB64);
      var end := Leb128.PutSLEB(data, size, v);
      size := end;
    }

    // The value is a type index.
    method PutSLEB33(v: u32)
      requires Valid()
      modifies this, data
      ensures Appended(SLEB(v)) && Charged(old(size) + 5)
    {
      FitsIndexS33(v);
      Ensure(MAX_SLEB33);
      var end := Leb128.PutSLEB(data, size, v);
      size := end;
    }

    method PutF32(bits: u32)
      requires Valid()
      modifies this, data
      ensures Appended(LittleEndian(bits, 4)) && Charged(old(size) + 4)
    {
      FourBytes(Contents(), bits);
      Ensure(4);
      PutU8Unchecked(bits % 256);
      PutU8Unchecked(bits / 256 % 256);
      PutU8Unchecked(bits / 65536 % 256);
      PutU8Unchecked(bits / 16777216 % 256);
    }

    method PutF64(bits: u64)
      requires Valid()
      modifies this, data
      ensures Appended(LittleEndian(bits, 8)) && Charged(old(size) + 8)
    {
      Ensure(8);
      ghost var before := Contents();
      var v: nat := bits;
      for i := 0 to 8
        invariant Valid() && Charged(old(size) + 8) && size == |before| + i && size + (8 - i) <= capacity
        invariant data == old(data) || fresh(data)
        invariant Contents() + LittleEndian(v, 8 - i) == before + LittleEndian(bits, 8)
      {
        NextByte(Contents(), v, 8 - i);
        PutU8Unchecked(v % 256);
        v := v / 256;
      }
      assert Contents() + LittleEndian(v, 0) == Contents();
    }

    method PutBytes(bytes: seq<byte>)
      requires Valid()
      modifies this, data
      ensures Appended(bytes) && Charged(old(size) + |bytes|)
    {
      Ensure(|bytes|);
      if bytes != [] {
        PutBytesUnchecked(bytes);
      }
    }
  }

  lemma NextByte(before: seq<byte>, v: nat, n: nat)
    requires n > 0
    ensures before + LittleEndian(v, n) == before + [v % 256] + LittleEndian(v / 256, n - 1)
  {}

  lemma FourBytes(before: seq<byte>, v: nat)
    ensures before + LittleEndian(v, 4)
            == before + [v % 256] + [v / 256 % 256] + [v / 65536 % 256] + [v / 16777216 % 256]
  {
    assert v / 256 / 256 == v / 65536 && v / 65536 / 256 == v / 16777216;
    NextByte(before, v, 4);
    NextByte(before + [v % 256], v / 256, 3);
    NextByte(before + [v % 256] + [v / 256 % 256], v / 65536, 2);
    NextByte(before + [v % 256] + [v / 256 % 256] + [v / 65536 % 256], v / 16777216, 1);
  }
}
