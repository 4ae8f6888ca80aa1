/**
 What an instruction's immediates refer to besides operands, and the conditions the specification puts on
 them (sections 2.4.7, 3.3.3, 3.3.6 and 3.3.7 of the WebAssembly Core Specification 2.0). The library checks none
 of them: its rows are a stack effect and nothing else.
 */
module Contexts {
  import opened Ints
  import opened Syntax
  import opened Codec
  import opened Typing

  // The environment the library checks against, and what the specification looks at besides: the functions
  // the module declares references to, the types of its element segments, and how many memories and data
  // segments it has.
  datatype Context = Context(env: Env, refs: set<u32>, elems: seq<RefType>, mems: nat, datas: nat)

  /* Opcodes. */

  const MEMORY_SIZE: u32 := 0x3F
  const MEMORY_GROW: u32 := 0x40
  const DATA_DROP: u32 := 0xFC00_0009
  const MEMORY_COPY: u32 := 0xFC00_000A
  const MEMORY_FILL: u32 := 0xFC00_000B
  const TABLE_INIT: u32 := 0xFC00_000C
  const ELEM_DROP: u32 := 0xFC00_000D
  const TABLE_COPY: u32 := 0xFC00_000E
  const VECTOR: u32 := 0xFD00_0000
  const SHUFFLE: u32 := 0xFD00_000D

  // The widths of the loads and stores from 0x28 to 0x3E, and of the vector ones from 0 to 11 and from 84 to
  // 93, as exponents of two.
  const WIDTHS: seq<nat> := [2, 3, 2, 3, 0, 0, 1, 1, 0, 0, 1, 1, 2, 2, 2, 3, 2, 3, 0, 1, 0, 1, 2]
  const VECTOR_WIDTHS: seq<nat> := [4, 3, 3, 3, 3, 3, 3, 0, 1, 2, 3, 4]
  const LANE_WIDTHS: seq<nat> := [0, 1, 2, 3, 0, 1, 2, 3, 2, 3]

  // The numbers of lanes of the extractions and replacements from 21 to 34, and of the lane accesses from 84
  // to 91.
  const LANES: seq<nat> := [16, 16, 16, 8, 8, 8, 4, 4, 2, 2, 4, 4, 2, 2]
  const ACCESS_LANES: seq<nat> := [16, 8, 4, 2, 16, 8, 4, 2]

  // The width of a memory access. Opcodes that are no access of the specification's have none.
  function Width(opcode: u32): Option<nat> {
    if 0x28 <= opcode <= 0x3E then Some(WIDTHS[opcode - 0x28])
    else if VECTOR <= opcode <= VECTOR + 11 then Some(VECTOR_WIDTHS[opcode - VECTOR])
    else if VECTOR + 84 <= opcode <= VECTOR + 93 then Some(LANE_WIDTHS[opcode - (VECTOR + 84)])
    else None
  }

  function LaneCount(opcode: u32): Option<nat> {
    if VECTOR + 21 <= opcode <= VECTOR + 34 then Some(LANES[opcode - (VECTOR + 21)])
    else if VECTOR + 84 <= opcode <= VECTOR + 91 then Some(ACCESS_LANES[opcode - (VECTOR + 84)])
    else None
  }

  /* The conditions. */

  predicate LaneOk(opcode: u32, lane: byte) {
    LaneCount(opcode).Some? ==> lane < LaneCount(opcode).value
  }

  // Everything a row's immediates name is there.
  predicate Named(ctx: Context, row: Row, imm: Imm) {
    match imm
    case Mem(arg) => arg.memory < ctx.mems
    case MemLane(arg, lane) => arg.memory < ctx.mems && LaneOk(row.opcode, lane)
    case Lane(lane) => LaneOk(row.opcode, lane)
    case Bytes16(bytes) => row.opcode == SHUFFLE ==> forall k | 0 <= k < |bytes| :: bytes[k] < 32
    case MemInit(data) => 0 < ctx.mems && data < ctx.datas
    case Idx(i) =>
      && (row.opcode == MEMORY_SIZE || row.opcode == MEMORY_GROW || row.opcode == MEMORY_FILL ==> i < ctx.mems)
      && (row.opcode == DATA_DROP ==> i < ctx.datas)
      && (row.opcode == ELEM_DROP ==> i < |ctx.elems|)
    case Idx2(a, b) =>
      && (row.opcode == MEMORY_COPY ==> a < ctx.mems && b < ctx.mems)
      && (row.opcode == TABLE_INIT ==> a < |ctx.elems| && b < |ctx.env.tables|)
      && (row.opcode == TABLE_COPY ==> a < |ctx.env.tables| && b < |ctx.env.tables|)
    case _ => true
  }

  // A table gets elements of its own type: from segment a into table b, or from table b into table a.
  predicate SameElements(ctx: Context, row: Row, imm: Imm)
    requires Named(ctx, row, imm)
  {
    imm.Idx2? ==>
      && (row.opcode == TABLE_INIT ==> ctx.elems[imm.a] == ctx.env.tables[imm.b])
      && (row.opcode == TABLE_COPY ==> ctx.env.tables[imm.a] == ctx.env.tables[imm.b])
  }

  // No access claims to be aligned to more than its width.
  predicate Aligned(row: Row, imm: Imm) {
    match imm
    case Mem(arg) => Width(row.opcode).Some? ==> arg.align <= Width(row.opcode).value
    case MemLane(arg, _) => Width(row.opcode).Some? ==> arg.align <= Width(row.opcode).value
    case _ => true
  }

  // Offsets are u32 unless memories have 64-bit addresses.
  predicate Addressed(ctx: Context, imm: Imm) {
    match imm
    case Mem(arg) => AddrOk(ctx.env.addr == I64, arg.offset)
    case MemLane(arg, _) => AddrOk(ctx.env.addr == I64, arg.offset)
    case _ => true
  }

  predicate RowOk(ctx: Context, row: Row, imm: Imm) {
    Named(ctx, row, imm) && SameElements(ctx, row, imm) && Aligned(row, imm) && Addressed(ctx, imm)
  }
}
