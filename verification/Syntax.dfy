/** Types, instructions and structured bodies, and the flat call sequence that builds a body. */
module Syntax {
  import opened Ints

  datatype ValType = I32 | I64 | F32 | F64 | V128 | FuncRef | ExternRef

  type RefType = t: ValType | t.FuncRef? || t.ExternRef? witness FuncRef

  datatype FuncType = FuncType(params: seq<ValType>, results: seq<ValType>)

  datatype GlobalType = GlobalType(t: ValType, mutable: bool)

  datatype BlockType = Void | Value(t: ValType) | Indexed(idx: u32)

  // The kinds of control frame; KFunc is the implicit frame of the whole body.
  datatype Kind = KBlock | KLoop | KIf | KFunc

  type FrameKind = k: Kind | k != KFunc witness KBlock

  // The immediate shapes of the instruction table.
  datatype Shape =
    | NoImmShape | IdxShape | Idx2Shape | I32Shape | I64Shape | F32Shape | F64Shape
    | LaneShape | FenceShape | MemInitShape | Bytes16Shape | MemArgShape | MemArgLaneShape
    | RefTypeShape | SelectTShape | BrTableShape

  // One row of the instruction table whose stack effect is a fixed arrow.
  datatype Row = Row(opcode: u32, shape: Shape, pops: seq<ValType>, pushes: seq<ValType>)

  datatype MemArg = MemArg(align: byte, offset: u64, memory: u32)

  datatype Imm =
    | NoImm
    | Idx(i: u32)
    | Idx2(a: u32, b: u32)
    | ConstI32(n32: i32)
    | ConstI64(n64: i64)
    | ConstF32(bits32: u32)
    | ConstF64(bits64: u64)
    | Lane(lane: byte)
    | Fence
    | MemInit(data: u32)
    | Bytes16(bytes: seq<byte>)
    | Mem(arg: MemArg)
    | MemLane(larg: MemArg, mlane: byte)
    | OneType(t: ValType)
    | TypeVec(vt: ValType)
    | Labels(targets: seq<u32>, default: u32)

  datatype Op =
    | Fixed(row: Row, imm: Imm)
    | Unreachable
    | Return
    | Drop
    | Select
    | SelectT(t: ValType)
    | RefNull(ref: RefType)
    | RefIsNull
    | RefFunc(func: u32)
    | LocalGet(local: u32)
    | LocalSet(local: u32)
    | LocalTee(local: u32)
    | GlobalGet(global: u32)
    | GlobalSet(global: u32)
    | TableGet(table: u32)
    | TableSet(table: u32)
    | TableSize(table: u32)
    | TableGrow(table: u32)
    | TableFill(table: u32)
    | Call(func: u32)
    | CallIndirect(sig: u32, table: u32)
    | Br(rel: u32)
    | BrIf(rel: u32)
    | BrTable(targets: seq<u32>, default: u32)

  // A body grows at its end, one instruction at a time. An `if` without an else arm is a
  // Scope of kind KIf.
  datatype Code = Empty | Snoc(init: Code, last: Instr)
  datatype Instr =
    | Plain(op: Op)
    | Scope(kind: FrameKind, bt: BlockType, body: Code)
    | IfElse(bt: BlockType, thn: Code, els: Code)

  // One emitter call.
  datatype Event = Do(op: Op) | Start(kind: FrameKind, bt: BlockType) | Else | End

  // The calls, in emission order, that build a body.
  function Flatten(c: Code): seq<Event> {
    match c
    case Empty => []
    case Snoc(init, last) => Flatten(init) + FlattenInstr(last)
  }

  function FlattenInstr(i: Instr): seq<Event> {
    match i
    case Plain(op) => [Do(op)]
    case Scope(kind, bt, body) => [Start(kind, bt)] + Flatten(body) + [End]
    case IfElse(bt, thn, els) => [Start(KIf, bt)] + Flatten(thn) + [Else] + Flatten(els) + [End]
  }

  function Append(a: Code, b: Code): Code {
    match b
    case Empty => a
    case Snoc(init, last) => Snoc(Append(a, init), last)
  }
}
