/**
 Which instructions of a body some run can reach. The outcome of every test and table is open, so this
 is decided by looking at the body: code goes on behind an instruction unless it always jumps away.
 */
module Liveness {
  import opened Syntax
  import opened Typing
  import opened Machine
  import opened TreeCheck
  import opened Contexts
  import opened Specification

  predicate OpFalls(op: Op) {
    !(op.Unreachable? || op.Return? || op.Br? || op.BrTable?)
  }

  predicate OpJumps(op: Op, l: nat) {
    match op
    case Br(rel) => rel == l
    case BrIf(rel) => rel == l
    case BrTable(ls, d) => d == l || exists k :: 0 <= k < |ls| && ls[k] == l
    case _ => false
  }

  // Some run of `c` reaches its end.
  predicate Falls(c: Code)
    decreases c
  {
    match c
    case Empty => true
    case Snoc(init, last) => Falls(init) && FallsInstr(last)
  }

  predicate FallsInstr(i: Instr)
    decreases i
  {
    match i
    case Plain(op) => OpFalls(op)
    case Scope(kind, _, body) => kind == KIf || Falls(body) || (kind == KBlock && Jumps(body, 0))
    case IfElse(_, thn, els) => Falls(thn) || Falls(els) || Jumps(thn, 0) || Jumps(els, 0)
  }

  // Some run of `c` branches to label l of the code around it.
  predicate Jumps(c: Code, l: nat)
    decreases c
  {
    match c
    case Empty => false
    case Snoc(init, last) => Jumps(init, l) || (Falls(init) && JumpsInstr(last, l))
  }

  predicate JumpsInstr(i: Instr, l: nat)
    decreases i
  {
    match i
    case Plain(op) => OpJumps(op, l)
    case Scope(_, _, body) => Jumps(body, l + 1)
    case IfElse(_, thn, els) => Jumps(thn, l + 1) || Jumps(els, l + 1)
  }

  // Every branch table that can be reached names labels of one type.
  predicate LiveUniform(env: Env, labels: LabelStack, c: Code)
    decreases c
  {
    match c
    case Empty => true
    case Snoc(init, last) => LiveUniform(env, labels, init) && (Falls(init) ==> LiveUniformInstr(env, labels, last))
  }

  predicate LiveUniformInstr(env: Env, labels: LabelStack, i: Instr)
    decreases i
  {
    match i
    case Plain(op) => op.BrTable? ==> TargetsUniform(labels, op.targets, op.default)
    case Scope(kind, bt, body) =>
      Expand(env, bt).Some? ==> LiveUniform(env, labels + [LabelOf(kind, Expand(env, bt).value)], body)
    case IfElse(bt, thn, els) =>
      Expand(env, bt).Some? ==>
        var inner := labels + [Expand(env, bt).value.results];
        LiveUniform(env, inner, thn) && LiveUniform(env, inner, els)
  }

  // Every instruction that can be reached is guarded, on the operands the library's check finds there.
  predicate LiveGuarded(ctx: Context, labels: LabelStack, g: Segment, c: Code)
    decreases c
  {
    match c
    case Empty => true
    case Snoc(init, last) =>
      && LiveGuarded(ctx, labels, g, init)
      && (Falls(init) ==>
            match CheckCode(ctx.env, labels, g, init)
            case None => true
            case Some(m) => LiveGuardedInstr(ctx, labels, m, last))
  }

  predicate LiveGuardedInstr(ctx: Context, labels: LabelStack, g: Segment, i: Instr)
    decreases i
  {
    match i
    case Plain(op) => Guards(ctx, labels, g, op)
    case Scope(kind, bt, body) =>
      Expand(ctx.env, bt).Some? ==>
        var ft := Expand(ctx.env, bt).value;
        LiveGuarded(ctx, labels + [LabelOf(kind, ft)], Holding(ft.params), body)
    case IfElse(bt, thn, els) =>
      Expand(ctx.env, bt).Some? ==>
        var ft := Expand(ctx.env, bt).value;
        && LiveGuarded(ctx, labels + [ft.results], Holding(ft.params), thn)
        && LiveGuarded(ctx, labels + [ft.results], Holding(ft.params), els)
  }
}
