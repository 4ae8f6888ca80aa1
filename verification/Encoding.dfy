/**
 The bytes of instructions and bodies, and a decoder after section 5.4 of the WebAssembly Core
 Specification 2.0 that recovers them. The instruction table is a parameter, so everything here
 holds for every set of rows.
 */
module Encoding {
  import opened Ints
  import opened Syntax
  import opened Leb128
  import opened Buffers
  import opened Codec

  // What a decoder is built for: the rows of the instruction table by opcode, and whether memories are 64
  // bits wide.
  datatype Table = Table(rows: map<u32, Row>, memory64: bool)

  const MAX_OP_BYTES: nat := 1 + MAX_ULEB32
  const MAX_MEM_ARG: nat := MAX_ULEB32 + MAX_ULEB32 + MAX_ULEB64

  /* Value types and block types. */

  function TypeByte(t: ValType): byte {
    match t
    case I32 => 0x7F
    case I64 => 0x7E
    case F32 => 0x7D
    case F64 => 0x7C
    case V128 => 0x7B
    case FuncRef => 0x70
    case ExternRef => 0x6F
  }

  function TypeOfByte(b: byte): Option<ValType> {
    if b == 0x7F then Some(I32)
    else if b == 0x7E then Some(I64)
    else if b == 0x7D then Some(F32)
    else if b == 0x7C then Some(F64)
    else if b == 0x7B then Some(V128)
    else if b == 0x70 then Some(FuncRef)
    else if b == 0x6F then Some(ExternRef)
    else None
  }

  function EncBlockType(bt: BlockType): seq<byte> {
    match bt
    case Void => [0x40]
    case Value(t) => [TypeByte(t)]
    case Indexed(i) => SLEB(i)
  }

  // Section 5.4.1: 0x40, a value type, or a non-negative s33.
  function DecBlockType(bs: seq<byte>): (r: Option<(BlockType, seq<byte>)>)
    ensures r.Some? ==> |r.value.1| < |bs|
  {
    if bs == [] then None
    else if bs[0] == 0x40 then Some((Void, bs[1..]))
    else if TypeOfByte(bs[0]).Some? then Some((Value(TypeOfByte(bs[0]).value), bs[1..]))
    else
      match DecodeS(33, bs)
      case None => None
      case Some((i, rest)) => if 0 <= i < 0x1_0000_0000 then Some((Indexed(i), rest)) else None
  }

  lemma S33RoundTrip(i: u32, rest: seq<byte>)
    ensures DecodeS(33, SLEB(i) + rest) == Some((i, rest))
  {
    Pow2Values();
    RoundTripS(33, i, rest);
  }

  // A type index never starts with 0x40 or the byte of a value type.
  lemma IndexedRoundTrip(i: u32, rest: seq<byte>)
    ensures DecBlockType(SLEB(i) + rest) == Some((Indexed(i), rest))
  {
    S33RoundTrip(i, rest);
    assert (SLEB(i) + rest)[0] < 64 || (SLEB(i) + rest)[0] >= 128;
  }

  lemma BlockTypeRoundTrip(bt: BlockType, rest: seq<byte>)
    ensures DecBlockType(EncBlockType(bt) + rest) == Some((bt, rest))
  {
    if bt.Indexed? {
      IndexedRoundTrip(bt.idx, rest);
    } else {
      assert (EncBlockType(bt) + rest)[1..] == rest;
    }
  }

  /* Immediates. */

  // The flag bit that announces a memory index.
  function WithMemoryFlag(align: byte): u32 {
    if align / 64 % 2 == 1 then align else align + 64
  }

  function EncMemArg(m: MemArg): seq<byte> {
    if m.memory == 0 then ULEB(m.align) + ULEB(m.offset)
    else ULEB(WithMemoryFlag(m.align)) + ULEB(m.memory) + ULEB(m.offset)
  }

  // Section 5.4.6, with a 64-bit offset where memories are 64 bits wide.
  function DecMemArg(wide: bool, bs: seq<byte>): (r: Option<(MemArg, seq<byte>)>)
    ensures r.Some? ==> |r.value.1| < |bs|
  {
    match DecodeU(32, bs)
    case None => None
    case Some((flags, r1)) =>
      if flags < 64 then
        (match DecAddr(wide, r1) case None => None
         case Some((offset, r2)) => Some((MemArg(flags, offset, 0), r2)))
      else if flags < 128 then
        (match DecIdx(r1) case None => None
         case Some((memory, r2)) =>
           match DecAddr(wide, r2) case None => None
           case Some((offset, r3)) => Some((MemArg(flags - 64, offset, memory), r3)))
      else None
  }

  lemma MemArg0RoundTrip(wide: bool, align: byte, offset: u64, rest: seq<byte>)
    ensures var r := DecMemArg(wide, ULEB(align) + ULEB(offset) + rest);
      if align < 64 then r == if AddrOk(wide, offset) then Some((MemArg(align, offset, 0), rest)) else None
      else r.None? || r.value.0.align < align
  {
    Assoc(ULEB(align), ULEB(offset), rest);
    U32RoundTrip(align, ULEB(offset) + rest);
    AddrRoundTrip(wide, offset, rest);
  }

  lemma MemArg1RoundTrip(wide: bool, align: u32, memory: u32, offset: u64, rest: seq<byte>)
    requires memory != 0 && align >= 64
    ensures DecMemArg(wide, ULEB(align) + ULEB(memory) + ULEB(offset) + rest)
            == if align < 128 && AddrOk(wide, offset) then Some((MemArg(align - 64, offset, memory), rest)) else None
  {
    Assoc(ULEB(align) + ULEB(memory), ULEB(offset), rest);
    Assoc(ULEB(align), ULEB(memory), ULEB(offset) + rest);
    U32RoundTrip(align, ULEB(memory) + (ULEB(offset) + rest));
    IdxRoundTrip(memory, ULEB(offset) + rest);
    AddrRoundTrip(wide, offset, rest);
  }

  // The alignment leaves the flag bit free, and the offset is one of the memory's width.
  predicate MemArgOk(wide: bool, m: MemArg) {
    m.align < 64 && AddrOk(wide, m.offset)
  }

  // Exactly then a memory argument is readable back.
  lemma MemArgRoundTrip(wide: bool, m: MemArg, rest: seq<byte>)
    ensures DecMemArg(wide, EncMemArg(m) + rest) == Some((m, rest)) <==> MemArgOk(wide, m)
  {
    if m.memory == 0 {
      MemArg0RoundTrip(wide, m.align, m.offset, rest);
    } else {
      MemArg1RoundTrip(wide, WithMemoryFlag(m.align), m.memory, m.offset, rest);
    }
  }

  function DecLittleEndian(n: nat, bs: seq<byte>): (v: nat)
    requires |bs| >= n
    decreases |bs|
  {
    if n == 0 then 0 else bs[0] + 256 * DecLittleEndian(n - 1, bs[1..])
  }

  lemma {:induction false} LittleEndianRoundTrip(v: nat, n: nat, rest: seq<byte>)
    requires v < Pow2(8 * n)
    ensures DecLittleEndian(n, LittleEndian(v, n) + rest) == v
    decreases n
  {
    if n > 0 {
      assert Pow2(8 * n) == 2 * Pow2(8 * n - 1);
      Pow2Seven(8 * n - 1);
      assert (LittleEndian(v, n) + rest)[1..] == LittleEndian(v / 256, n - 1) + rest;
      LittleEndianRoundTrip(v / 256, n - 1, rest);
    }
  }

  function EncImm(imm: Imm): seq<byte> {
    match imm
    case NoImm => []
    case Idx(i) => ULEB(i)
    case Idx2(a, b) => ULEB(a) + ULEB(b)
    case ConstI32(n) => SLEB(n)
    case ConstI64(n) => SLEB(n)
    case ConstF32(bits) => LittleEndian(bits, 4)
    case ConstF64(bits) => LittleEndian(bits, 8)
    case Lane(lane) => [lane]
    case Fence => [0x00]
    case MemInit(data) => ULEB(data) + [0x00]
    case Bytes16(bytes) => bytes
    case Mem(arg) => EncMemArg(arg)
    case MemLane(arg, lane) => EncMemArg(arg) + [lane]
    case OneType(t) => [TypeByte(t)]
    case TypeVec(t) => [1, TypeByte(t)]
    case Labels(targets, default) => EncVec(EncIdx, targets) + ULEB(default)
  }

  function ShapeOf(imm: Imm): Shape {
    match imm
    case NoImm => NoImmShape
    case Idx(_) => IdxShape
    case Idx2(_, _) => Idx2Shape
    case ConstI32(_) => I32Shape
    case ConstI64(_) => I64Shape
    case ConstF32(_) => F32Shape
    case ConstF64(_) => F64Shape
    case Lane(_) => LaneShape
    case Fence => FenceShape
    case MemInit(_) => MemInitShape
    case Bytes16(_) => Bytes16Shape
    case Mem(_) => MemArgShape
    case MemLane(_, _) => MemArgLaneShape
    case OneType(_) => RefTypeShape
    case TypeVec(_) => SelectTShape
    case Labels(_, _) => BrTableShape
  }

  // What the encoding can carry: sixteen bytes are sixteen, memory arguments are readable back, reference
  // types are reference types, and vector lengths are u32.
  predicate ImmOk(wide: bool, imm: Imm) {
    match imm
    case Bytes16(bytes) => |bytes| == 16
    case Mem(arg) => MemArgOk(wide, arg)
    case MemLane(arg, _) => MemArgOk(wide, arg)
    case OneType(t) => t.FuncRef? || t.ExternRef?
    case Labels(targets, _) => IsU32(|targets|)
    case _ => true
  }

  function DecIdx2(bs: seq<byte>): Option<(Imm, seq<byte>)> {
    match DecIdx(bs)
    case None => None
    case Some((a, r1)) => match DecIdx(r1) case None => None case Some((b, r2)) => Some((Idx2(a, b), r2))
  }

  lemma {:induction false} IndicesShrink(n: nat, bs: seq<byte>)
    ensures DecAll(DecIdx, n, bs).Some? ==> |DecAll(DecIdx, n, bs).value.1| <= |bs|
    decreases n
  {
    if n > 0 && DecIdx(bs).Some? {
      IndicesShrink(n - 1, DecIdx(bs).value.1);
    }
  }

  function DecLabels(bs: seq<byte>): (r: Option<(Imm, seq<byte>)>)
    ensures r.Some? ==> |r.value.1| <= |bs|
  {
    match DecVec(DecIdx, bs)
    case None => None
    case Some((targets, r1)) =>
      IndicesShrink(DecIdx(bs).value.0, DecIdx(bs).value.1);
      match DecIdx(r1) case None => None case Some((d, r2)) => Some((Labels(targets, d), r2))
  }

  // Reads the lane byte after a memory argument.
  function WithLane(arg: Option<(MemArg, seq<byte>)>): Option<(Imm, seq<byte>)> {
    match arg
    case None => None
    case Some((m, r)) => if r == [] then None else Some((MemLane(m, r[0]), r[1..]))
  }

  function DecImm(wide: bool, shape: Shape, bs: seq<byte>): (r: Option<(Imm, seq<byte>)>)
    ensures r.Some? ==> |r.value.1| <= |bs|
  {
    match shape
    case NoImmShape => Some((NoImm, bs))
    case IdxShape => (match DecIdx(bs) case None => None case Some((i, r)) => Some((Idx(i), r)))
    case Idx2Shape => DecIdx2(bs)
    case I32Shape =>
      (match DecodeS(32, bs) case None => None
       case Some((n, r)) => if -0x8000_0000 <= n < 0x8000_0000 then Some((ConstI32(n), r)) else None)
    case I64Shape =>
      (match DecodeS(64, bs) case None => None
       case Some((n, r)) =>
         if -0x8000_0000_0000_0000 <= n < 0x8000_0000_0000_0000 then Some((ConstI64(n), r)) else None)
    case F32Shape =>
      if |bs| < 4 then None
      else var v := DecLittleEndian(4, bs); if IsU32(v) then Some((ConstF32(v), bs[4..])) else None
    case F64Shape =>
      if |bs| < 8 then None
      else var v := DecLittleEndian(8, bs); if IsU64(v) then Some((ConstF64(v), bs[8..])) else None
    case LaneShape => if bs == [] then None else Some((Lane(bs[0]), bs[1..]))
    case FenceShape => if bs == [] || bs[0] != 0 then None else Some((Fence, bs[1..]))
    case MemInitShape =>
      (match DecIdx(bs) case None => None
       case Some((i, r)) => if r == [] || r[0] != 0 then None else Some((MemInit(i), r[1..])))
    case Bytes16Shape => if |bs| < 16 then None else Some((Bytes16(bs[..16]), bs[16..]))
    case MemArgShape => (match DecMemArg(wide, bs) case None => None case Some((m, r)) => Some((Mem(m), r)))
    case MemArgLaneShape => WithLane(DecMemArg(wide, bs))
    case RefTypeShape =>
      if bs == [] then None
      else if bs[0] == 0x70 || bs[0] == 0x6F then Some((OneType(TypeOfByte(bs[0]).value), bs[1..]))
      else None
    case SelectTShape =>
      if |bs| < 2 || bs[0] != 1 || TypeOfByte(bs[1]).None? then None
      else Some((TypeVec(TypeOfByte(bs[1]).value), bs[2..]))
    case BrTableShape => DecLabels(bs)
  }

  lemma LabelsRoundTrip(targets: seq<u32>, default: u32, rest: seq<byte>)
    requires IsU32(|targets|)
    ensures DecLabels(EncImm(Labels(targets, default)) + rest) == Some((Labels(targets, default), rest))
  {
    Assoc(EncVec(EncIdx, targets), ULEB(default), rest);
    forall i | i in targets
      ensures Reads(EncIdx, DecIdx, i)
    {
      IdxReads(i);
    }
    VecRoundTrip(EncIdx, DecIdx, targets, ULEB(default) + rest);
    IdxRoundTrip(default, rest);
  }

  lemma I32RoundTrip(n: i32, rest: seq<byte>)
    ensures DecodeS(32, SLEB(n) + rest) == Some((n, rest))
  {
    Pow2Values();
    RoundTripS(32, n, rest);
  }

  lemma I64RoundTrip(n: i64, rest: seq<byte>)
    ensures DecodeS(64, SLEB(n) + rest) == Some((n, rest))
  {
    Pow2Values();
    RoundTripS(64, n, rest);
  }

  lemma FloatRoundTrip(bits: u64, n: nat, rest: seq<byte>)
    requires (n == 4 && IsU32(bits)) || n == 8
    ensures DecLittleEndian(n, LittleEndian(bits, n) + rest) == bits
    ensures (LittleEndian(bits, n) + rest)[n..] == rest
  {
    Pow2Values();
    LittleEndianRoundTrip(bits, n, rest);
  }

  lemma ConstRoundTrip(wide: bool, imm: Imm, rest: seq<byte>)
    requires imm.ConstI32? || imm.ConstI64? || imm.ConstF32? || imm.ConstF64?
    ensures DecImm(wide, ShapeOf(imm), EncImm(imm) + rest) == Some((imm, rest))
  {
    match imm
    case ConstI32(n) => I32RoundTrip(n, rest);
    case ConstI64(n) => I64RoundTrip(n, rest);
    case ConstF32(bits) => FloatRoundTrip(bits, 4, rest);
    case ConstF64(bits) => FloatRoundTrip(bits, 8, rest);
  }

  lemma Idx2RoundTrip(a: u32, b: u32, rest: seq<byte>)
    ensures DecIdx2(ULEB(a) + ULEB(b) + rest) == Some((Idx2(a, b), rest))
  {
    Assoc(ULEB(a), ULEB(b), rest);
    IdxRoundTrip(a, ULEB(b) + rest);
    IdxRoundTrip(b, rest);
  }

  lemma MemInitRoundTrip(wide: bool, data: u32, rest: seq<byte>)
    ensures DecImm(wide, MemInitShape, ULEB(data) + [0x00] + rest) == Some((MemInit(data), rest))
  {
    Assoc(ULEB(data), [0x00], rest);
    IdxRoundTrip(data, [0x00] + rest);
    assert ([0x00] + rest)[1..] == rest;
  }

  lemma IndexRoundTrip(wide: bool, imm: Imm, rest: seq<byte>)
    requires imm.Idx? || imm.Idx2? || imm.MemInit?
    ensures DecImm(wide, ShapeOf(imm), EncImm(imm) + rest) == Some((imm, rest))
  {
    match imm
    case Idx(i) => IdxRoundTrip(i, rest);
    case Idx2(a, b) => Idx2RoundTrip(a, b, rest);
    case MemInit(data) => MemInitRoundTrip(wide, data, rest);
  }

  lemma ByteRoundTrip(wide: bool, imm: Imm, rest: seq<byte>)
    requires ImmOk(wide, imm) && (imm.NoImm? || imm.Lane? || imm.Fence? || imm.Bytes16? || imm.OneType? || imm.TypeVec?)
    ensures DecImm(wide, ShapeOf(imm), EncImm(imm) + rest) == Some((imm, rest))
  {
    var bs := EncImm(imm) + rest;
    var n := |EncImm(imm)|;
    assert bs[..n] == EncImm(imm) && bs[n..] == rest;
  }

  lemma MemRoundTrip(wide: bool, m: MemArg, rest: seq<byte>)
    requires MemArgOk(wide, m)
    ensures DecImm(wide, MemArgShape, EncMemArg(m) + rest) == Some((Mem(m), rest))
  {
    MemArgRoundTrip(wide, m, rest);
  }

  lemma MemLaneRoundTrip(wide: bool, m: MemArg, lane: byte, rest: seq<byte>)
    requires MemArgOk(wide, m)
    ensures DecImm(wide, MemArgLaneShape, EncMemArg(m) + [lane] + rest) == Some((MemLane(m, lane), rest))
  {
    MemArgRoundTrip(wide, m, [lane] + rest);
    LaneAfter(EncMemArg(m), DecMemArg(wide, EncMemArg(m) + ([lane] + rest)), m, lane, rest);
  }

  lemma LaneAfter(e: seq<byte>, r: Option<(MemArg, seq<byte>)>, m: MemArg, lane: byte, rest: seq<byte>)
    requires r == Some((m, [lane] + rest))
    ensures WithLane(r) == Some((MemLane(m, lane), rest)) && e + [lane] + rest == e + ([lane] + rest)
  {
    assert ([lane] + rest)[1..] == rest;
  }

  lemma ImmRoundTrip(wide: bool, imm: Imm, rest: seq<byte>)
    requires ImmOk(wide, imm)
    ensures DecImm(wide, ShapeOf(imm), EncImm(imm) + rest) == Some((imm, rest))
  {
    if imm.ConstI32? || imm.ConstI64? || imm.ConstF32? || imm.ConstF64? {
      ConstRoundTrip(wide, imm, rest);
    } else if imm.Idx? || imm.Idx2? || imm.MemInit? {
      IndexRoundTrip(wide, imm, rest);
    } else if imm.Labels? {
      LabelsRoundTrip(imm.targets, imm.default, rest);
    } else if imm.Mem? {
      MemRoundTrip(wide, imm.arg, rest);
    } else if imm.MemLane? {
      MemLaneRoundTrip(wide, imm.larg, imm.mlane, rest);
    } else {
      ByteRoundTrip(wide, imm, rest);
    }
  }

  /* Opcodes. */

  // Opcodes above 0xFF carry a prefix in the high byte and a sub-opcode in the low three.
  function EncOpcode(op: u32): seq<byte> {
    if op <= 0xFF then [op] else [op / 0x100_0000] + ULEB(op % 0x100_0000)
  }

  predicate IsPrefix(b: byte) {
    0xFC <= b <= 0xFE
  }

  predicate OpcodeOk(op: u32) {
    if op <= 0xFF then !IsPrefix(op) else IsPrefix(op / 0x100_0000)
  }

  function DecOpcode(bs: seq<byte>): (r: Option<(u32, seq<byte>)>)
    ensures r.Some? ==> |r.value.1| < |bs|
  {
    if bs == [] then None
    else if !IsPrefix(bs[0]) then Some((bs[0] as u32, bs[1..]))
    else
      match DecodeU(32, bs[1..])
      case None => None
      case Some((sub, rest)) =>
        if sub < 0x100_0000 then Some(((bs[0] * 0x100_0000 + sub) as u32, rest)) else None
  }

  lemma OpcodeRoundTrip(op: u32, rest: seq<byte>)
    requires OpcodeOk(op)
    ensures DecOpcode(EncOpcode(op) + rest) == Some((op, rest))
  {
    var bs := EncOpcode(op) + rest;
    if op <= 0xFF {
      assert bs[1..] == rest;
    } else {
      var sub := ULEB(op % 0x100_0000);
      Assoc([op / 0x100_0000], sub, rest);
      assert ([op / 0x100_0000] + (sub + rest))[1..] == sub + rest;
      U32RoundTrip(op % 0x100_0000, rest);
    }
  }

  // The opcodes of the instructions the validator treats by hand.
  function OpcodeOf(op: Op): u32 {
    match op
    case Fixed(row, _) => row.opcode
    case Unreachable => 0x00
    case Br(_) => 0x0C
    case BrIf(_) => 0x0D
    case BrTable(_, _) => 0x0E
    case Return => 0x0F
    case Call(_) => 0x10
    case CallIndirect(_, _) => 0x11
    case Drop => 0x1A
    case Select => 0x1B
    case SelectT(_) => 0x1C
    case LocalGet(_) => 0x20
    case LocalSet(_) => 0x21
    case LocalTee(_) => 0x22
    case GlobalGet(_) => 0x23
    case GlobalSet(_) => 0x24
    case TableGet(_) => 0x25
    case TableSet(_) => 0x26
    case RefNull(_) => 0xD0
    case RefIsNull => 0xD1
    case RefFunc(_) => 0xD2
    case TableGrow(_) => 0xFC00_000F
    case TableSize(_) => 0xFC00_0010
    case TableFill(_) => 0xFC00_0011
  }

  function ImmOf(op: Op): Imm {
    match op
    case Fixed(_, imm) => imm
    case Br(l) => Idx(l)
    case BrIf(l) => Idx(l)
    case BrTable(targets, default) => Labels(targets, default)
    case Call(f) => Idx(f)
    case CallIndirect(sig, table) => Idx2(sig, table)
    case SelectT(t) => TypeVec(t)
    case LocalGet(x) => Idx(x)
    case LocalSet(x) => Idx(x)
    case LocalTee(x) => Idx(x)
    case GlobalGet(x) => Idx(x)
    case GlobalSet(x) => Idx(x)
    case TableGet(x) => Idx(x)
    case TableSet(x) => Idx(x)
    case RefNull(t) => OneType(t)
    case RefFunc(f) => Idx(f)
    case TableGrow(x) => Idx(x)
    case TableSize(x) => Idx(x)
    case TableFill(x) => Idx(x)
    case _ => NoImm
  }

  // The immediate shape of an opcode outside the table rows; None for a row or a control delimiter.
  function HandShape(opcode: u32): Option<Shape> {
    if opcode == 0x00 || opcode == 0x0F || opcode == 0x1A || opcode == 0x1B || opcode == 0xD1 then Some(NoImmShape)
    else if opcode == 0x0C || opcode == 0x0D || opcode == 0x10 || 0x20 <= opcode <= 0x26 || opcode == 0xD2
            || 0xFC00_000F <= opcode <= 0xFC00_0011 then Some(IdxShape)
    else if opcode == 0x0E then Some(BrTableShape)
    else if opcode == 0x11 then Some(Idx2Shape)
    else if opcode == 0x1C then Some(SelectTShape)
    else if opcode == 0xD0 then Some(RefTypeShape)
    else None
  }

  predicate IsDelimiter(opcode: u32) {
    0x02 <= opcode <= 0x05 || opcode == 0x0B
  }

  predicate TableOk(table: Table) {
    forall k | k in table.rows ::
      table.rows[k].opcode == k && OpcodeOk(k) && HandShape(k).None? && !IsDelimiter(k)
  }

  predicate OpOk(table: Table, op: Op) {
    && ImmOk(table.memory64, ImmOf(op))
    && (op.Fixed? ==>
          && op.row.opcode in table.rows && table.rows[op.row.opcode] == op.row
          && op.row.shape == ShapeOf(op.imm))
  }

  function BuildOp(table: Table, opcode: u32, imm: Imm): Option<Op> {
    if HandShape(opcode).None? then
      (if opcode in table.rows then Some(Fixed(table.rows[opcode], imm)) else None)
    else if HandShape(opcode) != Some(ShapeOf(imm)) then None
    else if opcode == 0x00 then Some(Unreachable)
    else if opcode == 0x0C then Some(Br(imm.i))
    else if opcode == 0x0D then Some(BrIf(imm.i))
    else if opcode == 0x0E then Some(BrTable(imm.targets, imm.default))
    else if opcode == 0x0F then Some(Return)
    else if opcode == 0x10 then Some(Call(imm.i))
    else if opcode == 0x11 then Some(CallIndirect(imm.a, imm.b))
    else if opcode == 0x1A then Some(Drop)
    else if opcode == 0x1B then Some(Select)
    else if opcode == 0x1C then Some(SelectT(imm.vt))
    else if opcode == 0x20 then Some(LocalGet(imm.i))
    else if opcode == 0x21 then Some(LocalSet(imm.i))
    else if opcode == 0x22 then Some(LocalTee(imm.i))
    else if opcode == 0x23 then Some(GlobalGet(imm.i))
    else if opcode == 0x24 then Some(GlobalSet(imm.i))
    else if opcode == 0x25 then Some(TableGet(imm.i))
    else if opcode == 0x26 then Some(TableSet(imm.i))
    else if opcode == 0xD0 then (if imm.t.FuncRef? || imm.t.ExternRef? then Some(RefNull(imm.t)) else None)
    else if opcode == 0xD1 then Some(RefIsNull)
    else if opcode == 0xD2 then Some(RefFunc(imm.i))
    else if opcode == 0xFC00_000F then Some(TableGrow(imm.i))
    else if opcode == 0xFC00_0010 then Some(TableSize(imm.i))
    else Some(TableFill(imm.i))
  }

  function EncOp(op: Op): seq<byte> {
    EncOpcode(OpcodeOf(op)) + EncImm(ImmOf(op))
  }

  function ShapeFor(table: Table, opcode: u32): Option<Shape> {
    if HandShape(opcode).Some? then HandShape(opcode)
    else if opcode in table.rows then Some(table.rows[opcode].shape)
    else None
  }

  function DecOp(table: Table, opcode: u32, bs: seq<byte>): (r: Option<(Op, seq<byte>)>)
    ensures r.Some? ==> |r.value.1| <= |bs|
  {
    match ShapeFor(table, opcode)
    case None => None
    case Some(shape) =>
      match DecImm(table.memory64, shape, bs)
      case None => None
      case Some((imm, rest)) =>
        match BuildOp(table, opcode, imm) case None => None case Some(op) => Some((op, rest))
  }

  // Opcode and immediate determine the instruction.
  lemma BuildRoundTrip(table: Table, op: Op)
    requires TableOk(table) && OpOk(table, op)
    ensures OpcodeOk(OpcodeOf(op)) && !IsDelimiter(OpcodeOf(op))
    ensures ShapeFor(table, OpcodeOf(op)) == Some(ShapeOf(ImmOf(op)))
    ensures BuildOp(table, OpcodeOf(op), ImmOf(op)) == Some(op)
  {
    if op.Fixed? {
      assert op.row.opcode in table.rows;
    }
  }

  /* Events. */

  function KindByte(kind: FrameKind): byte {
    match kind case KBlock => 0x02 case KLoop => 0x03 case KIf => 0x04
  }

  function EncEvent(ev: Event): seq<byte> {
    match ev
    case Do(op) => EncOp(op)
    case Start(kind, bt) => [KindByte(kind)] + EncBlockType(bt)
    case Else => [0x05]
    case End => [0x0B]
  }

  function DecEvent(table: Table, bs: seq<byte>): (r: Option<(Event, seq<byte>)>)
    ensures r.Some? ==> |r.value.1| < |bs|
  {
    match DecOpcode(bs)
    case None => None
    case Some((opcode, rest)) =>
      if opcode == 0x0B then Some((End, rest))
      else if opcode == 0x05 then Some((Else, rest))
      else if 0x02 <= opcode <= 0x04 then
        match DecBlockType(rest)
        case None => None
        case Some((bt, rest')) =>
          Some((Start(if opcode == 0x02 then KBlock else if opcode == 0x03 then KLoop else KIf, bt), rest'))
      else
        match DecOp(table, opcode, rest) case None => None case Some((op, rest')) => Some((Do(op), rest'))
  }

  predicate EventOk(table: Table, ev: Event) {
    ev.Do? ==> OpOk(table, ev.op)
  }

  lemma OpRoundTrip(table: Table, op: Op, rest: seq<byte>)
    requires TableOk(table) && OpOk(table, op)
    ensures DecOp(table, OpcodeOf(op), EncImm(ImmOf(op)) + rest) == Some((op, rest))
  {
    BuildRoundTrip(table, op);
    ImmRoundTrip(table.memory64, ImmOf(op), rest);
  }

  lemma DoRoundTrip(table: Table, op: Op, rest: seq<byte>)
    requires TableOk(table) && OpOk(table, op)
    ensures DecEvent(table, EncOp(op) + rest) == Some((Do(op), rest))
  {
    OpRoundTrip(table, op, rest);
    var code, imm := OpcodeOf(op), EncImm(ImmOf(op));
    assert OpcodeOk(code) && !IsDelimiter(code) by { BuildRoundTrip(table, op); }
    Assoc(EncOpcode(code), imm, rest);
    OpcodeRoundTrip(code, imm + rest);
  }

  lemma StartRoundTrip(table: Table, kind: FrameKind, bt: BlockType, rest: seq<byte>)
    ensures DecEvent(table, EncEvent(Start(kind, bt)) + rest) == Some((Start(kind, bt), rest))
  {
    Assoc(EncOpcode(KindByte(kind)), EncBlockType(bt), rest);
    OpcodeRoundTrip(KindByte(kind), EncBlockType(bt) + rest);
    BlockTypeRoundTrip(bt, rest);
  }

  lemma EventRoundTrip(table: Table, ev: Event, rest: seq<byte>)
    requires TableOk(table) && EventOk(table, ev)
    ensures DecEvent(table, EncEvent(ev) + rest) == Some((ev, rest))
  {
    match ev
    case Do(op) => DoRoundTrip(table, op, rest);
    case Start(kind, bt) => StartRoundTrip(table, kind, bt, rest);
    case Else => OpcodeRoundTrip(0x05, rest);
    case End => OpcodeRoundTrip(0x0B, rest);
  }

  function EncEvents(evs: seq<Event>): seq<byte> {
    EncAll(EncEvent, evs)
  }

  lemma EncEventsOne(ev: Event)
    ensures EncEvents([ev]) == EncEvent(ev)
  {
    assert [ev][..0] == [];
    assert EncEvents([]) + EncEvent(ev) == EncEvent(ev);
  }
}
