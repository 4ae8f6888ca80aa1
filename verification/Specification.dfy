/**
 The specification's own validation rules for bodies (sections 3.1, 3.3 and 3.4 of the WebAssembly Core
 Specification 2.0), with the bottom type of dead code. They are tighter than what the library checks in
 five rules, branch tables, untyped select, ref.is_null, ref.func and call_indirect, and in the conditions
 on the immediates of rows.
 */
module Specification {
  import opened Ints
  import opened Syntax
  import opened Typing
  import opened Machine
  import opened Contexts

  // Operand types are value types and bottom, which is written Unknown; bottom matches every type.
  type Operands = seq<Slot>

  predicate AllFit(xs: Operands, ts: seq<ValType>) {
    |xs| == |ts| && forall k | 0 <= k < |xs| :: Fits(xs[k], ts[k])
  }

  // The operands on top match ts.
  predicate TopFits(s: Operands, ts: seq<ValType>) {
    |ts| <= |s| && AllFit(s[|s| - |ts|..], ts)
  }

  predicate Number(x: Slot) {
    x.Known? ==> !x.t.FuncRef? && !x.t.ExternRef?
  }

  predicate Reference(x: Slot) {
    x.Known? ==> x.t.FuncRef? || x.t.ExternRef?
  }

  predicate SpecArrow(s1: Operands, pops: seq<ValType>, s2: Operands, pushes: seq<ValType>) {
    TopFits(s1, pops) && s2 == s1[..|s1| - |pops|] + KnownAll(pushes)
  }

  // Two operands that match one numeric or vector type, or bottom, and a condition.
  ghost predicate SpecSelect(s1: Operands, s2: Operands) {
    && |s1| >= 3 && |s2| == |s1| - 2 && s2[..|s1| - 3] == s1[..|s1| - 3]
    && var t := s2[|s1| - 3];
       && Number(t) && Fits(s1[|s1| - 1], I32)
       && (s1[|s1| - 2] == Unknown || s1[|s1| - 2] == t) && (s1[|s1| - 3] == Unknown || s1[|s1| - 3] == t)
  }

  predicate SpecTable(labels: LabelStack, ls: seq<u32>, d: u32, s1: Operands) {
    && s1 != [] && Fits(s1[|s1| - 1], I32)
    && d < |labels| && TopFits(s1[..|s1| - 1], LabelAt(labels, d))
    && forall k | 0 <= k < |ls| ::
         && ls[k] < |labels| && |LabelAt(labels, ls[k])| == |LabelAt(labels, d)|
         && TopFits(s1[..|s1| - 1], LabelAt(labels, ls[k]))
  }

  // What a row takes: the address of a memory access, its deepest operand, is as wide as memories are.
  function RowOperands(ctx: Context, row: Row, imm: Imm): seq<ValType> {
    if (imm.Mem? || imm.MemLane?) && row.pops != [] && row.pops[0] == I32
    then row.pops[0 := ctx.env.addr] else row.pops
  }

  // Without several memories there is no memory but 0.
  predicate OneMemory(ctx: Context, imm: Imm) {
    ctx.env.multiMemory || ((imm.Mem? ==> imm.arg.memory == 0) && (imm.MemLane? ==> imm.larg.memory == 0))
  }

  ghost predicate SpecRow(ctx: Context, row: Row, imm: Imm, s1: Operands, s2: Operands) {
    RowOk(ctx, row, imm) && OneMemory(ctx, imm) && SpecArrow(s1, RowOperands(ctx, row, imm), s2, row.pushes)
  }

  // Under an operand on top that matches i32: an index or a condition.
  predicate SpecUnder(s1: Operands, pops: seq<ValType>, s2: Operands, pushes: seq<ValType>) {
    s1 != [] && Fits(s1[|s1| - 1], I32) && SpecArrow(s1[..|s1| - 1], pops, s2, pushes)
  }

  predicate OnTable(op: Op) {
    op.TableGet? || op.TableSet? || op.TableSize? || op.TableGrow? || op.TableFill?
  }

  predicate OnVariable(op: Op) {
    op.LocalGet? || op.LocalSet? || op.LocalTee? || op.GlobalGet? || op.GlobalSet?
  }

  ghost predicate SpecOp(ctx: Context, labels: LabelStack, op: Op, s1: Operands, s2: Operands) {
    var env := ctx.env;
    match op
    case Fixed(row, imm) => SpecRow(ctx, row, imm, s1, s2)
    case Unreachable => true
    case Return => TopFits(s1, env.results)
    case Drop => s1 != [] && s2 == s1[..|s1| - 1]
    case Select => SpecSelect(s1, s2)
    case SelectT(t) => SpecArrow(s1, [t, t, I32], s2, [t])
    case RefNull(t) => s2 == s1 + [Known(t)]
    case RefIsNull => s1 != [] && Reference(s1[|s1| - 1]) && s2 == s1[..|s1| - 1] + [Known(I32)]
    case RefFunc(f) => f < |env.funcs| && f in ctx.refs && s2 == s1 + [Known(FuncRef)]
    case LocalGet(x) => x < |env.locals| && s2 == s1 + [Known(env.locals[x])]
    case LocalSet(x) => x < |env.locals| && SpecArrow(s1, [env.locals[x]], s2, [])
    case LocalTee(x) => x < |env.locals| && SpecArrow(s1, [env.locals[x]], s2, [env.locals[x]])
    case GlobalGet(x) => x < |env.globals| && s2 == s1 + [Known(env.globals[x].t)]
    case GlobalSet(x) => x < |env.globals| && env.globals[x].mutable && SpecArrow(s1, [env.globals[x].t], s2, [])
    case TableGet(x) => x < |env.tables| && SpecArrow(s1, [I32], s2, [env.tables[x]])
    case TableSet(x) => x < |env.tables| && SpecArrow(s1, [I32, env.tables[x]], s2, [])
    case TableSize(x) => x < |env.tables| && s2 == s1 + [Known(I32)]
    case TableGrow(x) => x < |env.tables| && SpecArrow(s1, [env.tables[x], I32], s2, [I32])
    case TableFill(x) => x < |env.tables| && SpecArrow(s1, [I32, env.tables[x], I32], s2, [])
    case Call(f) =>
      && f < |env.funcs| && env.funcs[f] < |env.types|
      && SpecArrow(s1, env.types[env.funcs[f]].params, s2, env.types[env.funcs[f]].results)
    case CallIndirect(sig, x) =>
      && x < |env.tables| && env.tables[x] == FuncRef && sig < |env.types|
      && SpecUnder(s1, env.types[sig].params, s2, env.types[sig].results)
    case Br(l) => l < |labels| && TopFits(s1, LabelAt(labels, l))
    case BrIf(l) => l < |labels| && SpecUnder(s1, LabelAt(labels, l), s2, LabelAt(labels, l))
    case BrTable(ls, d) => SpecTable(labels, ls, d, s1)
  }

  // The type of a block (section 3.2.2).
  function BlockSig(types: seq<FuncType>, bt: BlockType): Option<FuncType> {
    match bt
    case Void => Some(FuncType([], []))
    case Value(t) => Some(FuncType([], [t]))
    case Indexed(i) => if i < |types| then Some(types[i]) else None
  }

  // A block takes its parameters to its results; an if has its condition on top of them.
  predicate SpecBlock(kind: FrameKind, ft: FuncType, s1: Operands, s2: Operands) {
    if kind == KIf then SpecUnder(s1, ft.params, s2, ft.results) else SpecArrow(s1, ft.params, s2, ft.results)
  }

  ghost predicate SpecCode(ctx: Context, labels: LabelStack, c: Code, s1: Operands, s2: Operands)
    decreases c, 0
  {
    match c
    case Empty => s1 == s2
    case Snoc(init, last) =>
      exists m :: SpecCode(ctx, labels, init, s1, m) && SpecInstr(ctx, labels, last, m, s2)
  }

  ghost predicate SpecInstr(ctx: Context, labels: LabelStack, i: Instr, s1: Operands, s2: Operands)
    decreases i, 0
  {
    match i
    case Plain(op) => SpecOp(ctx, labels, op, s1, s2)
    case Scope(kind, bt, body) =>
      BlockSig(ctx.env.types, bt).Some? &&
      var ft := BlockSig(ctx.env.types, bt).value;
      && SpecBlock(kind, ft, s1, s2)
      && (kind == KIf ==> ft.params == ft.results)
      && SpecArm(ctx, labels + [if kind == KLoop then ft.params else ft.results], body, ft.params, ft.results)
    case IfElse(bt, thn, els) =>
      BlockSig(ctx.env.types, bt).Some? &&
      var ft := BlockSig(ctx.env.types, bt).value;
      && SpecBlock(KIf, ft, s1, s2)
      && SpecArm(ctx, labels + [ft.results], thn, ft.params, ft.results)
      && SpecArm(ctx, labels + [ft.results], els, ft.params, ft.results)
  }

  // A sequence from exactly the parameters to operands that match the results.
  ghost predicate SpecArm(ctx: Context, labels: LabelStack, c: Code, params: seq<ValType>, results: seq<ValType>)
    decreases c, 1
  {
    exists s2 :: SpecCode(ctx, labels, c, KnownAll(params), s2) && AllFit(s2, results)
  }

  ghost predicate SpecBody(ctx: Context, c: Code) {
    SpecArm(ctx, [ctx.env.results], c, [], ctx.env.results)
  }

  /* What the library would have to check besides, in terms of its own state before the call. */

  // The k-th operand from the top of a frame; unknown below its bottom.
  function SlotAt(g: Segment, k: nat): Slot {
    if k < |g.slots| then g.slots[|g.slots| - 1 - k] else Unknown
  }

  // What a run depends on: the operation finds what its immediates name, elements of the type they are taken
  // for, and operands for wherever it goes.
  predicate Guards(ctx: Context, labels: LabelStack, g: Segment, op: Op) {
    match op
    case Fixed(row, imm) => Named(ctx, row, imm) && SameElements(ctx, row, imm)
    case RefIsNull => Reference(SlotAt(g, 0))
    case CallIndirect(_, x) => x < |ctx.env.tables| ==> ctx.env.tables[x] == FuncRef
    case BrTable(ls, _) =>
      forall k | 0 <= k < |ls| && ls[k] < |labels| :: PopList(g, LabelAt(labels, ls[k]) + [I32]).Some?
    case _ => true
  }

  // What is asked of a body besides, though no run depends on it.
  predicate WellFormed(ctx: Context, g: Segment, op: Op) {
    match op
    case Fixed(row, imm) => Aligned(row, imm) && Addressed(ctx, imm)
    case Select => Number(SlotAt(g, 1)) && Number(SlotAt(g, 2))
    case RefFunc(f) => f in ctx.refs
    case _ => true
  }

  predicate Permits(ctx: Context, labels: LabelStack, g: Segment, op: Op) {
    Guards(ctx, labels, g, op) && WellFormed(ctx, g, op)
  }
}
