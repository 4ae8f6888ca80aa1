/**
 Declarative typing of bodies over concrete value types, by the rules the library applies. It has the
 shape of section 3.3 of the WebAssembly Core Specification 2.0, whose own, tighter rules are in
 Specification.dfy. Nothing here mentions the validator's stacks.
 */
module Typing {
  import opened Ints
  import opened Syntax

  // What a body is checked against: the declared module entities, the locals and the signature.
  datatype Env = Env(
    types: seq<FuncType>, funcs: seq<nat>, globals: seq<GlobalType>, tables: seq<RefType>,
    locals: seq<ValType>, results: seq<ValType>, addr: ValType, multiMemory: bool)

  // Label types, the innermost label last.
  type LabelStack = seq<seq<ValType>>

  // The type of an instruction that has no body of its own. Arrow pops and pushes fixed types;
  // Stop pops fixed types and never continues; the last three are polymorphic in one value type.
  datatype Effect =
    | Reject
    | Arrow(pops: seq<ValType>, pushes: seq<ValType>)
    | Stop(pops: seq<ValType>)
    | DropOne
    | SelectOne
    | TestOne

  function LabelAt(labels: LabelStack, rel: nat): seq<ValType>
    requires rel < |labels|
  {
    labels[|labels| - 1 - rel]
  }

  // A branch table may name any labels in range whose arity is the default's.
  predicate TargetsOk(labels: LabelStack, targets: seq<u32>, default: u32) {
    && default < |labels|
    && forall k | 0 <= k < |targets| ::
         targets[k] < |labels| && |LabelAt(labels, targets[k])| == |LabelAt(labels, default)|
  }

  // Every target carries the same types as the default.
  predicate TargetsUniform(labels: LabelStack, targets: seq<u32>, default: u32) {
    default < |labels| ==>
      forall k | 0 <= k < |targets| ::
        targets[k] < |labels| ==> LabelAt(labels, targets[k]) == LabelAt(labels, default)
  }

  // The address operand of a memory access is the deepest pop.
  function WithAddress(addr: ValType, pops: seq<ValType>): seq<ValType> {
    if |pops| >= 1 && pops[0] == I32 then [addr] + pops[1..] else pops
  }

  function RowEffect(env: Env, row: Row, imm: Imm): Effect {
    match imm
    case Mem(arg) =>
      if arg.memory != 0 && !env.multiMemory then Reject
      else Arrow(WithAddress(env.addr, row.pops), row.pushes)
    case MemLane(arg, _) =>
      if arg.memory != 0 && !env.multiMemory then Reject
      else Arrow(WithAddress(env.addr, row.pops), row.pushes)
    case _ => Arrow(row.pops, row.pushes)
  }

  function CallEffect(env: Env, sig: nat, extra: seq<ValType>): Effect {
    if sig < |env.types| then Arrow(env.types[sig].params + extra, env.types[sig].results) else Reject
  }

  function EffectOf(env: Env, labels: LabelStack, op: Op): Effect {
    match op
    case Fixed(row, imm) => RowEffect(env, row, imm)
    case Unreachable => Stop([])
    case Return => Stop(env.results)
    case Drop => DropOne
    case Select => SelectOne
    case SelectT(t) => Arrow([t, t, I32], [t])
    case RefNull(ref) => Arrow([], [ref])
    case RefIsNull => TestOne
    case RefFunc(f) => if f < |env.funcs| then Arrow([], [FuncRef]) else Reject
    case LocalGet(x) => if x < |env.locals| then Arrow([], [env.locals[x]]) else Reject
    case LocalSet(x) => if x < |env.locals| then Arrow([env.locals[x]], []) else Reject
    case LocalTee(x) => if x < |env.locals| then Arrow([env.locals[x]], [env.locals[x]]) else Reject
    case GlobalGet(g) => if g < |env.globals| then Arrow([], [env.globals[g].t]) else Reject
    case GlobalSet(g) =>
      if g < |env.globals| && env.globals[g].mutable then Arrow([env.globals[g].t], []) else Reject
    case TableGet(x) => if x < |env.tables| then Arrow([I32], [env.tables[x]]) else Reject
    case TableSet(x) => if x < |env.tables| then Arrow([I32, env.tables[x]], []) else Reject
    case TableSize(x) => if x < |env.tables| then Arrow([], [I32]) else Reject
    case TableGrow(x) => if x < |env.tables| then Arrow([env.tables[x], I32], [I32]) else Reject
    case TableFill(x) => if x < |env.tables| then Arrow([I32, env.tables[x], I32], []) else Reject
    case Call(f) => if f < |env.funcs| then CallEffect(env, env.funcs[f], []) else Reject
    case CallIndirect(sig, x) => if x < |env.tables| then CallEffect(env, sig, [I32]) else Reject
    case Br(l) => if l < |labels| then Stop(LabelAt(labels, l)) else Reject
    case BrIf(l) =>
      if l < |labels| then Arrow(LabelAt(labels, l) + [I32], LabelAt(labels, l)) else Reject
    case BrTable(ls, d) => if TargetsOk(labels, ls, d) then Stop(LabelAt(labels, d) + [I32]) else Reject
  }

  // The types a block type stands for; None for a type index out of range.
  function Expand(env: Env, bt: BlockType): Option<FuncType> {
    match bt
    case Void => Some(FuncType([], []))
    case Value(t) => Some(FuncType([], [t]))
    case Indexed(i) => if i < |env.types| then Some(env.types[i]) else None
  }

  // What an opening instruction pops; `if` also pops its condition.
  function Entry(kind: FrameKind, ft: FuncType): seq<ValType> {
    if kind == KIf then ft.params + [I32] else ft.params
  }

  function LabelOf(kind: Kind, ft: FuncType): seq<ValType> {
    if kind == KLoop then ft.params else ft.results
  }

  predicate Ends<T(==)>(s: seq<T>, tail: seq<T>) {
    |tail| <= |s| && s[|s| - |tail|..] == tail
  }

  function Below<T>(s: seq<T>, tail: seq<T>): (r: seq<T>)
    requires |tail| <= |s|
  {
    s[..|s| - |tail|]
  }

  // s1 carries `pops` on top and s2 is s1 with them replaced by `pushes`.
  ghost predicate Rewrites(s1: seq<ValType>, pops: seq<ValType>, s2: seq<ValType>, pushes: seq<ValType>) {
    Ends(s1, pops) && s2 == Below(s1, pops) + pushes
  }

  ghost predicate TypedEffect(eff: Effect, s1: seq<ValType>, s2: seq<ValType>) {
    match eff
    case Reject => false
    case Arrow(pops, pushes) => Rewrites(s1, pops, s2, pushes)
    case Stop(pops) => Ends(s1, pops)
    case DropOne => exists t: ValType :: Rewrites(s1, [t], s2, [])
    case SelectOne => exists t: ValType :: Rewrites(s1, [t, t, I32], s2, [t])
    case TestOne => exists t: ValType :: Rewrites(s1, [t], s2, [I32])
  }

  ghost predicate TypedOp(strict: bool, env: Env, labels: LabelStack, op: Op, s1: seq<ValType>, s2: seq<ValType>) {
    && (strict && op.BrTable? ==> TargetsUniform(labels, op.targets, op.default))
    && TypedEffect(EffectOf(env, labels, op), s1, s2)
  }

  // `c` takes the operand types s1 to s2. Branch tables follow the library's arity rule; with `strict`,
  // all labels of a table must carry the same types.
  ghost predicate TypedCode(strict: bool, env: Env, labels: LabelStack, c: Code, s1: seq<ValType>, s2: seq<ValType>)
    decreases c
  {
    match c
    case Empty => s1 == s2
    case Snoc(init, last) =>
      exists m :: TypedCode(strict, env, labels, init, s1, m) && TypedInstr(strict, env, labels, last, m, s2)
  }

  ghost predicate TypedInstr(strict: bool, env: Env, labels: LabelStack, i: Instr, s1: seq<ValType>, s2: seq<ValType>)
    decreases i
  {
    match i
    case Plain(op) => TypedOp(strict, env, labels, op, s1, s2)
    case Scope(kind, bt, body) =>
      Expand(env, bt).Some? &&
      var ft := Expand(env, bt).value;
      && Rewrites(s1, Entry(kind, ft), s2, ft.results)
      && (kind == KIf ==> ft.params == ft.results)
      && TypedCode(strict, env, labels + [LabelOf(kind, ft)], body, ft.params, ft.results)
    case IfElse(bt, thn, els) =>
      Expand(env, bt).Some? &&
      var ft := Expand(env, bt).value;
      && Rewrites(s1, Entry(KIf, ft), s2, ft.results)
      && TypedCode(strict, env, labels + [ft.results], thn, ft.params, ft.results)
      && TypedCode(strict, env, labels + [ft.results], els, ft.params, ft.results)
  }

  // Every branch table inside `c` names labels of one type.
  predicate Uniform(env: Env, labels: LabelStack, c: Code)
    decreases c
  {
    match c
    case Empty => true
    case Snoc(init, last) => Uniform(env, labels, init) && UniformInstr(env, labels, last)
  }

  predicate UniformInstr(env: Env, labels: LabelStack, i: Instr)
    decreases i
  {
    match i
    case Plain(op) => op.BrTable? ==> TargetsUniform(labels, op.targets, op.default)
    case Scope(kind, bt, body) =>
      Expand(env, bt).Some? ==> Uniform(env, labels + [LabelOf(kind, Expand(env, bt).value)], body)
    case IfElse(bt, thn, els) =>
      Expand(env, bt).Some? ==>
        var inner := labels + [Expand(env, bt).value.results];
        Uniform(env, inner, thn) && Uniform(env, inner, els)
  }

  // Section 3.4.1: a function body runs from the empty stack to the declared results, under one
  // label that carries the results.
  ghost predicate TypedBody(strict: bool, env: Env, c: Code) {
    TypedCode(strict, env, [env.results], c, [], env.results)
  }

  // The two table rules differ exactly by uniformity, which is decided by looking at the body.
  lemma {:induction false} StrictIffUniform(env: Env, labels: LabelStack, c: Code, s1: seq<ValType>, s2: seq<ValType>)
    ensures TypedCode(true, env, labels, c, s1, s2)
            <==> TypedCode(false, env, labels, c, s1, s2) && Uniform(env, labels, c)
    decreases c
  {
    match c
    case Empty =>
    case Snoc(init, last) =>
      forall m
        ensures TypedCode(true, env, labels, init, s1, m)
                <==> TypedCode(false, env, labels, init, s1, m) && Uniform(env, labels, init)
        ensures TypedInstr(true, env, labels, last, m, s2)
                <==> TypedInstr(false, env, labels, last, m, s2) && UniformInstr(env, labels, last)
      {
        StrictIffUniform(env, labels, init, s1, m);
        StrictIffUniformInstr(env, labels, last, m, s2);
      }
  }

  lemma {:induction false} StrictIffUniformInstr(
    env: Env, labels: LabelStack, i: Instr, s1: seq<ValType>, s2: seq<ValType>)
    ensures TypedInstr(true, env, labels, i, s1, s2)
            <==> TypedInstr(false, env, labels, i, s1, s2) && UniformInstr(env, labels, i)
    decreases i
  {
    match i
    case Plain(op) =>
    case Scope(kind, bt, body) =>
      if Expand(env, bt).Some? {
        var ft := Expand(env, bt).value;
        StrictIffUniform(env, labels + [LabelOf(kind, ft)], body, ft.params, ft.results);
      }
    case IfElse(bt, thn, els) =>
      if Expand(env, bt).Some? {
        var ft := Expand(env, bt).value;
        StrictIffUniform(env, labels + [ft.results], thn, ft.params, ft.results);
        StrictIffUniform(env, labels + [ft.results], els, ft.params, ft.results);
      }
  }
}
