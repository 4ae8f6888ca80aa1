/**
 The cursor writers of the emitter: opcodes, immediates and block types written into bytes that
 were reserved beforehand. Each is proved to write its encoding and to stay inside its reservation.
 */
module Emitters {
  import opened Ints
  import opened Syntax
  import opened Leb128
  import opened Buffers
  import opened Codec
  import opened Encoding

  // The bytes before the cursor grew by bs.
  twostate predicate Grew(dst: array<byte>, at: nat, end: nat, bs: seq<byte>)
    requires at <= dst.Length
    reads dst
  {
    end == at + |bs| <= dst.Length && dst[..end] == old(dst[..at]) + bs
  }

  // Bytes reserved for an immediate, by its shape.
  function Reserved(imm: Imm): nat {
    match imm
    case NoImm => 0
    case Idx(_) => 5
    case Idx2(_, _) => 10
    case ConstI32(_) => 5
    case ConstI64(_) => 10
    case ConstF32(_) => 4
    case ConstF64(_) => 8
    case Lane(_) => 1
    case Fence => 1
    case MemInit(_) => 6
    case Bytes16(_) => 16
    case Mem(_) => 20
    case MemLane(_, _) => 21
    case OneType(_) => 1
    case TypeVec(_) => 2
    case Labels(targets, _) => 5 * (|targets| + 2)
  }

  // The same in the library's constants.
  method Reservation(imm: Imm) returns (n: nat)
    ensures n == Reserved(imm)
  {
    match imm
    case NoImm => n := 0;
    case Idx(_) => n := MAX_ULEB32;
    case Idx2(_, _) => n := 2 * MAX_ULEB32;
    case ConstI32(_) => n := MAX_SLEB32;
    case ConstI64(_) => n := MAX_SLEB64;
    case ConstF32(_) => n := 4;
    case ConstF64(_) => n := 8;
    case Lane(_) => n := 1;
    case Fence => n := 1;
    case MemInit(_) => n := MAX_ULEB32 + 1;
    case Bytes16(_) => n := 16;
    case Mem(_) => n := MAX_MEM_ARG;
    case MemLane(_, _) => n := MAX_MEM_ARG + 1;
    case OneType(_) => n := 1;
    case TypeVec(_) => n := 2;
    case Labels(targets, _) => n := MAX_ULEB32 * (|targets| + 2);
  }

  // What the types of the library already guarantee: v128 constants have sixteen bytes, a branch
  // table's length is a size_t, and the immediates written by hand belong to no table row.
  predicate Wellsized(op: Op) {
    match op
    case Fixed(_, imm) =>
      !imm.OneType? && !imm.TypeVec? && !imm.Labels? && (imm.Bytes16? ==> |imm.bytes| == 16)
    case BrTable(targets, _) => IsU64(|targets|)
    case _ => true
  }

  lemma {:induction false} IndicesFit(xs: seq<u32>)
    ensures |EncAll(EncIdx, xs)| <= MAX_ULEB32 * |xs|
    decreases |xs|
  {
    if xs != [] {
      IndicesFit(xs[..|xs| - 1]);
      FitsU32(xs[|xs| - 1]);
    }
  }

  lemma OpcodeFits(op: u32)
    ensures |EncOpcode(op)| <= MAX_OP_BYTES
  {
    if op > 0xFF {
      FitsU32(op % 0x100_0000);
    }
  }

  lemma MemArgFits(m: MemArg)
    ensures |EncMemArg(m)| <= MAX_MEM_ARG
  {
    FitsU32(m.align);
    FitsU32(WithMemoryFlag(m.align));
    FitsU32(m.memory);
    FitsU64(m.offset);
  }

  // Every instruction fits the bytes reserved for it. A branch table's count may take ten bytes
  // where five were counted for it; the slack of its one-byte opcode makes up for that.
  lemma ReservationSuffices(op: Op)
    requires Wellsized(op)
    ensures |EncOp(op)| <= 6 + Reserved(ImmOf(op))
  {
    OpcodeFits(OpcodeOf(op));
    var imm := ImmOf(op);
    match imm
    case Idx(i) => FitsU32(i);
    case Idx2(a, b) =>
      FitsU32(a);
      FitsU32(b);
    case ConstI32(n) => FitsI32(n);
    case ConstI64(n) => FitsI64(n);
    case MemInit(data) => FitsU32(data);
    case Mem(arg) => MemArgFits(arg);
    case MemLane(arg, _) => MemArgFits(arg);
    case Labels(targets, default) =>
      FitsU64(|targets|);
      IndicesFit(targets);
      FitsU32(default);
    case _ =>
  }

  lemma StartFits(kind: FrameKind, bt: BlockType)
    ensures |EncEvent(Start(kind, bt))| <= 12
  {
    if bt.Indexed? {
      FitsIndexS33(bt.idx);
    }
  }

  /* The writers. */

  method PutByteAt(dst: array<byte>, at: nat, b: byte) returns (end: nat)
    requires at < dst.Length
    modifies dst
    ensures Grew(dst, at, end, [b])
  {
    dst[at] := b;
    end := at + 1;
  }

  method PutBytesAt(dst: array<byte>, at: nat, bs: seq<byte>) returns (end: nat)
    requires at + |bs| <= dst.Length
    modifies dst
    ensures Grew(dst, at, end, bs)
  {
    for i := 0 to |bs|
      invariant dst[..at + i] == old(dst[..at]) + bs[..i]
    {
      dst[at + i] := bs[i];
    }
    end := at + |bs|;
  }

  method PutU(dst: array<byte>, at: nat, v: u64) returns (end: nat)
    requires at + |ULEB(v)| <= dst.Length
    modifies dst
    ensures Grew(dst, at, end, ULEB(v))
  {
    end := PutULEB(dst, at, v);
    assert dst[..end] == dst[..][..end];
  }

  method PutS(dst: array<byte>, at: nat, v: i64) returns (end: nat)
    requires at + |SLEB(v)| <= dst.Length
    modifies dst
    ensures Grew(dst, at, end, SLEB(v))
  {
    end := PutSLEB(dst, at, v);
    assert dst[..end] == dst[..][..end];
  }

  // Little-endian bytes of a float's bit pattern.
  method PutFixed(dst: array<byte>, at: nat, bits: u64, n: nat) returns (end: nat)
    requires at + n <= dst.Length
    modifies dst
    ensures Grew(dst, at, end, LittleEndian(bits, n))
  {
    var v: nat := bits;
    for i := 0 to n
      invariant dst[..at + i] + LittleEndian(v, n - i) == old(dst[..at]) + LittleEndian(bits, n)
    {
      ghost var mid, rest := dst[..at + i], LittleEndian(v, n - i);
      dst[at + i] := v % 256;
      v := v / 256;
      assert dst[..at + i + 1] == mid + [rest[0]];
      assert mid + rest == mid + [rest[0]] + LittleEndian(v, n - i - 1);
    }
    end := at + n;
    assert dst[..end] == old(dst[..at]) + LittleEndian(bits, n);
  }

  method PutOpcode(dst: array<byte>, at: nat, op: u32) returns (end: nat)
    requires at + |EncOpcode(op)| <= dst.Length
    modifies dst
    ensures Grew(dst, at, end, EncOpcode(op))
  {
    if op <= 0xFF {
      end := PutByteAt(dst, at, op);
      return;
    }
    Assoc(dst[..at], [op / 0x100_0000], ULEB(op % 0x100_0000));
    end := PutByteAt(dst, at, op / 0x100_0000);
    end := PutU(dst, end, op % 0x100_0000);
  }

  // The library's natural-alignment sentinel.
  const NATURAL_ALIGN: byte := 0xFF

  // An alignment of 0xFF stands for the natural one of the instruction; any other is written as it is.
  method PutMemArg(dst: array<byte>, at: nat, m: MemArg, natural: byte) returns (end: nat)
    requires var meant := if m.align == 0xFF then MemArg(natural, m.offset, m.memory) else m;
      at + |EncMemArg(meant)| <= dst.Length
    modifies dst
    ensures var meant := if m.align == 0xFF then MemArg(natural, m.offset, m.memory) else m;
      Grew(dst, at, end, EncMemArg(meant))
  {
    var align := if m.align == NATURAL_ALIGN then natural else m.align;
    if m.memory == 0 {
      end := PutTwo(dst, at, align, m.offset);
    } else {
      var flags := if align / 64 % 2 == 1 then align else align + 64;
      Assoc(dst[..at], ULEB(flags) + ULEB(m.memory), ULEB(m.offset));
      end := PutTwo(dst, at, flags, m.memory);
      end := PutU(dst, end, m.offset);
    }
  }

  method PutTwo(dst: array<byte>, at: nat, a: u64, b: u64) returns (end: nat)
    requires at + |ULEB(a)| + |ULEB(b)| <= dst.Length
    modifies dst
    ensures Grew(dst, at, end, ULEB(a) + ULEB(b))
  {
    Assoc(dst[..at], ULEB(a), ULEB(b));
    end := PutU(dst, at, a);
    end := PutU(dst, end, b);
  }

  method PutBlockType(dst: array<byte>, at: nat, bt: BlockType) returns (end: nat)
    requires at + |EncBlockType(bt)| <= dst.Length
    modifies dst
    ensures Grew(dst, at, end, EncBlockType(bt))
  {
    match bt
    case Void => end := PutByteAt(dst, at, 0x40);
    case Value(t) => end := PutByteAt(dst, at, TypeByte(t));
    case Indexed(i) => end := PutS(dst, at, i);
  }

  // A branch table: the count, the targets, the default.
  method PutLabels(dst: array<byte>, at: nat, targets: seq<u32>, default: u32) returns (end: nat)
    requires IsU64(|targets|)
    requires at + |EncImm(Labels(targets, default))| <= dst.Length
    modifies dst
    ensures Grew(dst, at, end, EncImm(Labels(targets, default)))
  {
    ghost var start, head, middle := dst[..at], ULEB(|targets|), EncAll(EncIdx, targets);
    end := PutU(dst, at, |targets|);
    end := PutIndices(dst, end, targets);
    Assoc(start, head, middle);
    end := PutU(dst, end, default);
    Assoc(start, head + middle, ULEB(default));
  }

  method PutIndices(dst: array<byte>, at: nat, xs: seq<u32>) returns (end: nat)
    requires at + |EncAll(EncIdx, xs)| <= dst.Length
    modifies dst
    ensures Grew(dst, at, end, EncAll(EncIdx, xs))
  {
    end := at;
    ghost var start := dst[..at];
    for i := 0 to |xs|
      invariant end == at + |EncAll(EncIdx, xs[..i])| <= dst.Length
      invariant dst[..end] == start + EncAll(EncIdx, xs[..i])
    {
      EncAllPrefix(EncIdx, xs, i + 1);
      assert xs[..i + 1][..i] == xs[..i];
      Assoc(start, EncAll(EncIdx, xs[..i]), ULEB(xs[i]));
      end := PutU(dst, end, xs[i]);
    }
    assert xs[..|xs|] == xs;
  }

  // The immediates of every shape but memory arguments.
  method PutImm(dst: array<byte>, at: nat, imm: Imm) returns (end: nat)
    requires !imm.Mem? && !imm.MemLane? && (imm.Labels? ==> IsU64(|imm.targets|))
    requires at + |EncImm(imm)| <= dst.Length
    modifies dst
    ensures Grew(dst, at, end, EncImm(imm))
  {
    match imm
    case NoImm => end := at;
    case Idx(i) => end := PutU(dst, at, i);
    case Idx2(a, b) => end := PutTwo(dst, at, a, b);
    case ConstI32(n) => end := PutS(dst, at, n);
    case ConstI64(n) => end := PutS(dst, at, n);
    case ConstF32(bits) => end := PutFixed(dst, at, bits, 4);
    case ConstF64(bits) => end := PutFixed(dst, at, bits, 8);
    case Lane(lane) => end := PutByteAt(dst, at, lane);
    case Fence => end := PutByteAt(dst, at, 0x00);
    case MemInit(data) =>
      Assoc(dst[..at], ULEB(data), [0x00]);
      end := PutU(dst, at, data);
      end := PutByteAt(dst, end, 0x00);
    case Bytes16(bytes) => end := PutBytesAt(dst, at, bytes);
    case OneType(t) => end := PutByteAt(dst, at, TypeByte(t));
    case TypeVec(t) =>
      Assoc(dst[..at], [1], [TypeByte(t)]);
      end := PutByteAt(dst, at, 1);
      end := PutByteAt(dst, end, TypeByte(t));
    case Labels(targets, default) => end := PutLabels(dst, at, targets, default);
  }
}
