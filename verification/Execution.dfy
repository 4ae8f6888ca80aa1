/**
 A stack machine that runs bodies and checks what it finds as it goes: it gets Stuck on underflow of the
 current frame, on an operand of the wrong type, on a branch that does not find its label's types on top,
 on a frame that ends with anything but its results, on immediates that name nothing, and on a call of an
 element that is no function. Values are represented by their types, and a table by the types of the elements
 it may hold: elements of any type go where table.init and table.copy take them, and table.get and
 call_indirect find what is there. Which way a branch goes and which element is found is decided by a list of
 choices, so quantifying over the list covers every run and every number of loop iterations.
 */
module Execution {
  import opened Ints
  import opened Syntax
  import opened Typing
  import opened Liveness
  import opened Machine
  import opened Acceptance
  import opened Contexts
  import opened Specification
  import opened OperandRules
  import opened LiveTyping

  type Stack = seq<ValType>

  // A table and the type of an element it may hold. Nothing is taken out.
  type Tables = set<(nat, RefType)>

  datatype Outcome =
    | Stuck
    | Paused(held: Tables)        // the choices ran out: a run still going on
    | Trap(held: Tables)
    | Normal(st: Stack, held: Tables, left: seq<nat>)
    | Branching(rel: nat, carried: Stack, held: Tables, left: seq<nat>)
    | Returning(carried: Stack, held: Tables, left: seq<nat>)

  // No run makes choices.
  predicate Spends(r: Outcome, o: seq<nat>) {
    r.Normal? || r.Branching? || r.Returning? ==> |r.left| <= |o|
  }

  function Rewrite(st: Stack, pops: Stack, pushes: Stack, held: Tables, o: seq<nat>): Outcome {
    if Ends(st, pops) then Normal(Below(st, pops) + pushes, held, o) else Stuck
  }

  // A branch takes the label's types off the top of the stack.
  function Branch(labels: LabelStack, rel: nat, held: Tables, st: Stack, o: seq<nat>): Outcome {
    if rel < |labels| && Ends(st, LabelAt(labels, rel)) then Branching(rel, LabelAt(labels, rel), held, o) else Stuck
  }

  /* Tables. */

  // The element a choice finds in a table: a function, an external reference, or no element at all.
  function Found(held: Tables, x: nat, n: nat): Option<RefType> {
    var t: RefType := if n == 0 then FuncRef else ExternRef;
    if (x, t) in held then Some(t) else None
  }

  predicate Moves(row: Row, imm: Imm) {
    imm.Idx2? && (row.opcode == TABLE_INIT || row.opcode == TABLE_COPY)
  }

  // With the elements of segment a in table b, or those of table b in table a too.
  function Moved(ctx: Context, row: Row, imm: Imm, held: Tables): Tables
    requires Named(ctx, row, imm) && Moves(row, imm)
  {
    if row.opcode == TABLE_INIT then held + {(imm.b, ctx.elems[imm.a])}
    else held + set p | p in held && p.0 == imm.b :: (imm.a, p.1)
  }

  function ExecRow(ctx: Context, row: Row, imm: Imm, held: Tables, st: Stack, o: seq<nat>): (r: Outcome)
    ensures Spends(r, o)
  {
    var pops := RowOperands(ctx, row, imm);
    if !Named(ctx, row, imm) || !OneMemory(ctx, imm) then Stuck
    else if !Moves(row, imm) then Rewrite(st, pops, row.pushes, held, o)
    else if o == [] then Paused(held)
    else Rewrite(st, pops, row.pushes, if o[0] != 0 then Moved(ctx, row, imm, held) else held, o[1..])
  }

  // A call takes the parameters off the stack and leaves the results.
  function ExecCall(env: Env, sig: nat, held: Tables, st: Stack, o: seq<nat>): (r: Outcome)
    ensures Spends(r, o)
  {
    if sig < |env.types| then Rewrite(st, env.types[sig].params, env.types[sig].results, held, o) else Stuck
  }

  // table.get and call_indirect first look an element up.
  function ExecLookup(ctx: Context, op: Op, held: Tables, st: Stack, o: seq<nat>): (r: Outcome)
    requires op.TableGet? || op.CallIndirect?
    ensures Spends(r, o)
  {
    if op.table >= |ctx.env.tables| || !Ends(st, [I32]) then Stuck
    else if o == [] then Paused(held)
    else
      match Found(held, op.table, o[0])
      case None => Trap(held)
      case Some(t) =>
        if op.TableGet? then Normal(Below(st, [I32]) + [t], held, o[1..])
        else if t == FuncRef then ExecCall(ctx.env, op.sig, held, Below(st, [I32]), o[1..])
        else Stuck
  }

  // Locals and globals.
  function ExecVariable(env: Env, op: Op, held: Tables, st: Stack, o: seq<nat>): (r: Outcome)
    requires OnVariable(op)
    ensures Spends(r, o)
  {
    match op
    case LocalGet(x) => if x < |env.locals| then Normal(st + [env.locals[x]], held, o) else Stuck
    case LocalSet(x) => if x < |env.locals| then Rewrite(st, [env.locals[x]], [], held, o) else Stuck
    case LocalTee(x) =>
      if x < |env.locals| && Ends(st, [env.locals[x]]) then Normal(st, held, o) else Stuck
    case GlobalGet(x) => if x < |env.globals| then Normal(st + [env.globals[x].t], held, o) else Stuck
    case GlobalSet(x) =>
      if x < |env.globals| && env.globals[x].mutable then Rewrite(st, [env.globals[x].t], [], held, o) else Stuck
  }

  // What is put into a table is of its type, or the stack does not have it.
  function ExecTable(env: Env, op: Op, held: Tables, st: Stack, o: seq<nat>): (r: Outcome)
    requires OnTable(op) && !op.TableGet?
    ensures Spends(r, o)
  {
    if op.table >= |env.tables| then Stuck
    else
      var t := env.tables[op.table];
      var more := held + {(op.table, t)};
      match op
      case TableSet(_) => Rewrite(st, [I32, t], [], more, o)
      case TableGrow(_) => Rewrite(st, [t, I32], [I32], more, o)
      case TableFill(_) => Rewrite(st, [I32, t, I32], [], more, o)
      case TableSize(_) => Normal(st + [I32], held, o)
  }

  function ExecOp(ctx: Context, labels: LabelStack, op: Op, held: Tables, st: Stack, o: seq<nat>): (r: Outcome)
    ensures Spends(r, o)
  {
    match op
    case Fixed(row, imm) => ExecRow(ctx, row, imm, held, st, o)
    case Unreachable => Trap(held)
    case Return => if Ends(st, ctx.env.results) then Returning(ctx.env.results, held, o) else Stuck
    case Br(l) => Branch(labels, l, held, st, o)
    case BrIf(l) =>
      if !Ends(st, [I32]) then Stuck
      else if o == [] then Paused(held)
      else if o[0] != 0 then Branch(labels, l, held, Below(st, [I32]), o[1..])
      else Normal(Below(st, [I32]), held, o[1..])
    case BrTable(ls, d) =>
      if !Ends(st, [I32]) then Stuck
      else if o == [] then Paused(held)
      else Branch(labels, if o[0] < |ls| then ls[o[0]] else d, held, Below(st, [I32]), o[1..])
    case Drop => if st != [] then Normal(st[..|st| - 1], held, o) else Stuck
    case Select =>
      if |st| >= 3 && st[|st| - 1] == I32 && st[|st| - 2] == st[|st| - 3]
      then Normal(st[..|st| - 2], held, o) else Stuck
    case SelectT(t) => if Ends(st, [t, t, I32]) then Normal(st[..|st| - 2], held, o) else Stuck
    case RefNull(t) => Normal(st + [t], held, o)
    case RefIsNull =>
      if st != [] && Reference(Known(st[|st| - 1])) then Normal(st[..|st| - 1] + [I32], held, o) else Stuck
    case RefFunc(f) => if f < |ctx.env.funcs| then Normal(st + [FuncRef], held, o) else Stuck
    case Call(f) => if f < |ctx.env.funcs| then ExecCall(ctx.env, ctx.env.funcs[f], held, st, o) else Stuck
    case CallIndirect(_, _) => ExecLookup(ctx, op, held, st, o)
    case TableGet(_) => ExecLookup(ctx, op, held, st, o)
    case TableSet(_) => ExecTable(ctx.env, op, held, st, o)
    case TableSize(_) => ExecTable(ctx.env, op, held, st, o)
    case TableGrow(_) => ExecTable(ctx.env, op, held, st, o)
    case TableFill(_) => ExecTable(ctx.env, op, held, st, o)
    case LocalGet(_) => ExecVariable(ctx.env, op, held, st, o)
    case LocalSet(_) => ExecVariable(ctx.env, op, held, st, o)
    case LocalTee(_) => ExecVariable(ctx.env, op, held, st, o)
    case GlobalGet(_) => ExecVariable(ctx.env, op, held, st, o)
    case GlobalSet(_) => ExecVariable(ctx.env, op, held, st, o)
  }

  // Leaving a block: over the operands kept below it stand its results.
  function Leave(rest: Stack, results: Stack, r: Outcome): (out: Outcome)
    ensures forall o | Spends(r, o) :: Spends(out, o)
  {
    match r
    case Normal(st, held, o) => if st == results then Normal(rest + st, held, o) else Stuck
    case Branching(l, carried, held, o) =>
      if l == 0 then Normal(rest + carried, held, o) else Branching(l - 1, carried, held, o)
    case _ => r
  }

  function ExecCode(ctx: Context, labels: LabelStack, c: Code, held: Tables, st: Stack, o: seq<nat>): (r: Outcome)
    ensures Spends(r, o)
    decreases |o|, c
  {
    match c
    case Empty => Normal(st, held, o)
    case Snoc(init, last) =>
      match ExecCode(ctx, labels, init, held, st, o)
      case Normal(st', held', o') => ExecInstr(ctx, labels, last, held', st', o')
      case r => r
  }

  function ExecInstr(ctx: Context, labels: LabelStack, i: Instr, held: Tables, st: Stack, o: seq<nat>): (r: Outcome)
    ensures Spends(r, o)
    decreases |o|, i
  {
    match i
    case Plain(op) => ExecOp(ctx, labels, op, held, st, o)
    case Scope(kind, bt, body) =>
      if BlockSig(ctx.env.types, bt).None? then Stuck else
      var ft := BlockSig(ctx.env.types, bt).value;
      if kind == KIf then
        if !Ends(st, [I32]) || !Ends(Below(st, [I32]), ft.params) then Stuck
        else if o == [] then Paused(held)
        else
          Leave(Below(Below(st, [I32]), ft.params), ft.results,
                if o[0] != 0 then ExecCode(ctx, labels + [ft.results], body, held, ft.params, o[1..])
                else Normal(ft.params, held, o[1..]))
      else if !Ends(st, ft.params) then Stuck
      else if kind == KBlock then
        Leave(Below(st, ft.params), ft.results, ExecCode(ctx, labels + [ft.results], body, held, ft.params, o))
      else if o == [] then Paused(held)
      else
        var r := ExecCode(ctx, labels + [ft.params], body, held, ft.params, o[1..]);
        if r.Branching? && r.rel == 0 then ExecInstr(ctx, labels, i, r.held, Below(st, ft.params) + r.carried, r.left)
        else Leave(Below(st, ft.params), ft.results, r)
    case IfElse(bt, thn, els) =>
      if BlockSig(ctx.env.types, bt).None? then Stuck else
      var ft := BlockSig(ctx.env.types, bt).value;
      if !Ends(st, [I32]) || !Ends(Below(st, [I32]), ft.params) then Stuck
      else if o == [] then Paused(held)
      else
        Leave(Below(Below(st, [I32]), ft.params), ft.results,
              ExecCode(ctx, labels + [ft.results], if o[0] != 0 then thn else els, held, ft.params, o[1..]))
  }

  // A call of a function with body `c`; Normal carries the values it returns.
  function ExecBody(ctx: Context, c: Code, held: Tables, o: seq<nat>): Outcome {
    match ExecCode(ctx, [ctx.env.results], c, held, [], o)
    case Branching(l, carried, held', o') => if l == 0 then Normal(carried, held', o') else Stuck
    case Returning(carried, held', o') => Normal(carried, held', o')
    case r => r
  }

  /* No run takes an element out of a table. */

  predicate Keeps(held: Tables, r: Outcome) {
    r.Stuck? || held <= r.held
  }

  lemma OpKeeps(ctx: Context, labels: LabelStack, op: Op, held: Tables, st: Stack, o: seq<nat>)
    ensures Keeps(held, ExecOp(ctx, labels, op, held, st, o))
  {}

  lemma LeaveKeeps(held: Tables, rest: Stack, results: Stack, r: Outcome)
    requires Keeps(held, r)
    ensures Keeps(held, Leave(rest, results, r))
  {}

  lemma LaterKeeps(held: Tables, r: Outcome, r': Outcome)
    requires !r.Stuck? && Keeps(held, r) && Keeps(r.held, r')
    ensures Keeps(held, r')
  {}

  lemma {:induction false} CodeKeeps(ctx: Context, labels: LabelStack, c: Code, held: Tables, st: Stack, o: seq<nat>)
    ensures Keeps(held, ExecCode(ctx, labels, c, held, st, o))
    decreases |o|, c
  {
    match c
    case Empty =>
    case Snoc(init, last) =>
      CodeKeeps(ctx, labels, init, held, st, o);
      var r := ExecCode(ctx, labels, init, held, st, o);
      if r.Normal? {
        InstrKeeps(ctx, labels, last, r.held, r.st, r.left);
        LaterKeeps(held, r, ExecInstr(ctx, labels, last, r.held, r.st, r.left));
      }
  }

  lemma {:induction false} InstrKeeps(ctx: Context, labels: LabelStack, i: Instr, held: Tables, st: Stack, o: seq<nat>)
    ensures Keeps(held, ExecInstr(ctx, labels, i, held, st, o))
    decreases |o|, i, 1
  {
    match i
    case Plain(op) => OpKeeps(ctx, labels, op, held, st, o);
    case Scope(kind, bt, body) =>
      if BlockSig(ctx.env.types, bt).Some? {
        ScopeKeeps(ctx, labels, i, kind, bt, body, held, st, o);
      }
    case IfElse(bt, thn, els) =>
      if BlockSig(ctx.env.types, bt).Some? && o != [] {
        var ft := BlockSig(ctx.env.types, bt).value;
        CodeKeeps(ctx, labels + [ft.results], if o[0] != 0 then thn else els, held, ft.params, o[1..]);
      }
  }

  lemma {:induction false} ScopeKeeps(
    ctx: Context, labels: LabelStack, i: Instr, kind: FrameKind, bt: BlockType, body: Code, held: Tables, st: Stack,
    o: seq<nat>)
    requires i == Scope(kind, bt, body) && BlockSig(ctx.env.types, bt).Some?
    ensures Keeps(held, ExecInstr(ctx, labels, i, held, st, o))
    decreases |o|, i, 0
  {
    var ft := BlockSig(ctx.env.types, bt).value;
    if kind == KBlock {
      CodeKeeps(ctx, labels + [ft.results], body, held, ft.params, o);
    } else if o != [] {
      var inner := labels + [if kind == KIf then ft.results else ft.params];
      CodeKeeps(ctx, inner, body, held, ft.params, o[1..]);
      var r := ExecCode(ctx, inner, body, held, ft.params, o[1..]);
      if kind == KLoop && r.Branching? && r.rel == 0 && Ends(st, ft.params) {
        InstrKeeps(ctx, labels, i, r.held, Below(st, ft.params) + r.carried, r.left);
      }
    }
  }

  // Every table holds elements of its own type.
  predicate Kept(ctx: Context, held: Tables) {
    forall p | p in held :: p.0 < |ctx.env.tables| && p.1 == ctx.env.tables[p.0]
  }

  // What typing promises of a run that reached `r`.
  predicate Fine(ctx: Context, labels: LabelStack, r: Outcome, s2: Stack) {
    match r
    case Stuck => false
    case Paused(held) => Kept(ctx, held)
    case Trap(held) => Kept(ctx, held)
    case Normal(st, held, _) => st == s2 && Kept(ctx, held)
    case Branching(l, carried, held, _) => l < |labels| && carried == LabelAt(labels, l) && Kept(ctx, held)
    case Returning(carried, held, _) => carried == ctx.env.results && Kept(ctx, held)
  }

  lemma RewriteTop(s1: Stack, t: ValType, s2: Stack, pushes: Stack)
    requires Rewrites(s1, [t], s2, pushes)
    ensures s1 != [] && s2 == s1[..|s1| - 1] + pushes
  {}

  lemma EndsInner(st: Stack, a: Stack, b: Stack)
    requires Ends(st, a + b)
    ensures Ends(st, b) && Ends(Below(st, b), a) && Below(Below(st, b), a) == Below(st, a + b)
  {
    var n := |st| - |a| - |b|;
    assert st[n..] == a + b;
    assert st[n..][|a|..] == st[|st| - |b|..];
    assert st[n..][..|a|] == Below(st, b)[n..];
  }

  lemma TableTarget(ctx: Context, labels: LabelStack, ls: seq<u32>, d: u32, st: Stack, n: nat)
    requires TargetsOk(labels, ls, d) && Ends(st, LabelAt(labels, d) + [I32])
    requires Guards(ctx, labels, Holding(st), BrTable(ls, d))
    ensures Ends(st, [I32])
    ensures var l := if n < |ls| then ls[n] else d;
      l < |labels| && Ends(Below(st, [I32]), LabelAt(labels, l))
  {
    var l := if n < |ls| then ls[n] else d;
    PopHolding(st, LabelAt(labels, l) + [I32]);
    EndsInner(st, LabelAt(labels, l), [I32]);
  }

  lemma BrIfSafe(ctx: Context, labels: LabelStack, l: u32, held: Tables, s1: Stack, s2: Stack, o: seq<nat>)
    requires Kept(ctx, held)
    requires l < |labels| && Rewrites(s1, LabelAt(labels, l) + [I32], s2, LabelAt(labels, l))
    ensures Fine(ctx, labels, ExecOp(ctx, labels, BrIf(l), held, s1, o), s2)
  {
    var lt := LabelAt(labels, l);
    EndsInner(s1, lt, [I32]);
    assert Below(Below(s1, [I32]), lt) + lt == Below(s1, [I32]);
  }

  lemma BrTableSafe(ctx: Context, labels: LabelStack, op: Op, held: Tables, s1: Stack, s2: Stack, o: seq<nat>)
    requires Kept(ctx, held)
    requires op.BrTable? && TargetsOk(labels, op.targets, op.default)
    requires Ends(s1, LabelAt(labels, op.default) + [I32]) && Guards(ctx, labels, Holding(s1), op)
    ensures Fine(ctx, labels, ExecOp(ctx, labels, op, held, s1, o), s2)
  {
    TableTarget(ctx, labels, op.targets, op.default, s1, if o == [] then |op.targets| else o[0]);
  }

  lemma SelectSafe(ctx: Context, labels: LabelStack, t: ValType, held: Tables, s1: Stack, s2: Stack, o: seq<nat>)
    requires Kept(ctx, held)
    requires Rewrites(s1, [t, t, I32], s2, [t])
    ensures Fine(ctx, labels, ExecOp(ctx, labels, Select, held, s1, o), s2)
  {
    var top := s1[|s1| - 3..];
    assert top[0] == t && top[1] == t && top[2] == I32;
    assert s1[..|s1| - 2] == s1[..|s1| - 3] + [t];
  }

  predicate HasArrow(op: Op) {
    !(op.Unreachable? || op.Return? || op.Br? || op.BrIf? || op.BrTable? || op.Drop? || op.Select? || op.RefIsNull?)
  }

  // Elements moved between tables of one type keep every table's elements its own.
  lemma MovedKeeps(ctx: Context, row: Row, imm: Imm, held: Tables)
    requires Kept(ctx, held) && Named(ctx, row, imm) && SameElements(ctx, row, imm) && Moves(row, imm)
    ensures Kept(ctx, Moved(ctx, row, imm, held))
  {}

  lemma RowSafe(ctx: Context, labels: LabelStack, row: Row, imm: Imm, held: Tables, s1: Stack, s2: Stack, o: seq<nat>)
    requires Kept(ctx, held) && Named(ctx, row, imm) && SameElements(ctx, row, imm)
    requires TypedEffect(RowEffect(ctx.env, row, imm), s1, s2)
    ensures Fine(ctx, labels, ExecRow(ctx, row, imm, held, s1, o), s2)
  {
    RowIs(ctx, row, imm);
    if Moves(row, imm) {
      MovedKeeps(ctx, row, imm, held);
    }
  }

  // What is found in a table is of the table's type.
  lemma FoundIsOwn(ctx: Context, held: Tables, x: nat, n: nat)
    requires Kept(ctx, held) && x < |ctx.env.tables|
    ensures Found(held, x, n).Some? ==> Found(held, x, n).value == ctx.env.tables[x]
  {}

  // What a lookup comes to once the index is on the stack.
  lemma LookupRuns(ctx: Context, op: Op, held: Tables, st: Stack, o: seq<nat>)
    requires Kept(ctx, held) && (op.TableGet? || op.CallIndirect?)
    requires op.table < |ctx.env.tables| && Ends(st, [I32])
    requires op.CallIndirect? ==> ctx.env.tables[op.table] == FuncRef
    ensures var r := ExecLookup(ctx, op, held, st, o);
      || r == Paused(held) || r == Trap(held)
      || (o != [] && op.TableGet? && r == Normal(Below(st, [I32]) + [ctx.env.tables[op.table]], held, o[1..]))
      || (o != [] && op.CallIndirect? && r == ExecCall(ctx.env, op.sig, held, Below(st, [I32]), o[1..]))
  {
    if o != [] {
      FoundIsOwn(ctx, held, op.table, o[0]);
    }
  }

  lemma CallSafe(env: Env, sig: nat, held: Tables, s1: Stack, s2: Stack, o: seq<nat>)
    requires sig < |env.types| && Rewrites(s1, env.types[sig].params + [I32], s2, env.types[sig].results)
    ensures Ends(s1, [I32]) && ExecCall(env, sig, held, Below(s1, [I32]), o) == Normal(s2, held, o)
  {
    EndsInner(s1, env.types[sig].params, [I32]);
  }

  lemma LookupSafe(ctx: Context, labels: LabelStack, op: Op, held: Tables, s1: Stack, s2: Stack, o: seq<nat>)
    requires Kept(ctx, held)
    requires (op.TableGet? || op.CallIndirect?) && TypedEffect(EffectOf(ctx.env, labels, op), s1, s2)
    requires Guards(ctx, labels, Holding(s1), op)
    ensures Fine(ctx, labels, ExecLookup(ctx, op, held, s1, o), s2)
  {
    if op.CallIndirect? {
      CallSafe(ctx.env, op.sig, held, s1, s2, if o == [] then o else o[1..]);
    }
    LookupRuns(ctx, op, held, s1, o);
  }

  /* Instructions that use neither a choice nor a row. */

  lemma Pushed(s1: Stack, s2: Stack, t: ValType)
    requires Rewrites(s1, [], s2, [t])
    ensures s2 == s1 + [t]
  {}

  lemma Teed(s1: Stack, s2: Stack, t: ValType)
    requires Rewrites(s1, [t], s2, [t])
    ensures s2 == s1
  {
    assert s1 == s1[..|s1| - 1] + s1[|s1| - 1..];
  }

  lemma GetSafe(env: Env, labels: LabelStack, op: Op, held: Tables, s1: Stack, s2: Stack, o: seq<nat>)
    requires op.LocalGet? && TypedEffect(EffectOf(env, labels, op), s1, s2)
    ensures ExecVariable(env, op, held, s1, o) == Normal(s2, held, o)
  {
    Pushed(s1, s2, env.locals[op.local]);
  }

  lemma SetSafe(env: Env, labels: LabelStack, op: Op, held: Tables, s1: Stack, s2: Stack, o: seq<nat>)
    requires op.LocalSet? && TypedEffect(EffectOf(env, labels, op), s1, s2)
    ensures ExecVariable(env, op, held, s1, o) == Normal(s2, held, o)
  {}

  lemma TeeSafe(env: Env, labels: LabelStack, op: Op, held: Tables, s1: Stack, s2: Stack, o: seq<nat>)
    requires op.LocalTee? && TypedEffect(EffectOf(env, labels, op), s1, s2)
    ensures ExecVariable(env, op, held, s1, o) == Normal(s2, held, o)
  {
    Teed(s1, s2, env.locals[op.local]);
  }

  lemma LocalSafe(env: Env, labels: LabelStack, op: Op, held: Tables, s1: Stack, s2: Stack, o: seq<nat>)
    requires (op.LocalGet? || op.LocalSet? || op.LocalTee?) && TypedEffect(EffectOf(env, labels, op), s1, s2)
    ensures ExecVariable(env, op, held, s1, o) == Normal(s2, held, o)
  {
    if op.LocalGet? {
      GetSafe(env, labels, op, held, s1, s2, o);
    } else if op.LocalSet? {
      SetSafe(env, labels, op, held, s1, s2, o);
    } else {
      TeeSafe(env, labels, op, held, s1, s2, o);
    }
  }

  lemma GlobalSafe(env: Env, labels: LabelStack, op: Op, held: Tables, s1: Stack, s2: Stack, o: seq<nat>)
    requires (op.GlobalGet? || op.GlobalSet?) && TypedEffect(EffectOf(env, labels, op), s1, s2)
    ensures ExecVariable(env, op, held, s1, o) == Normal(s2, held, o)
  {
    if op.GlobalGet? {
      Pushed(s1, s2, env.globals[op.global].t);
    }
  }

  lemma SizeSafe(env: Env, labels: LabelStack, op: Op, held: Tables, s1: Stack, s2: Stack, o: seq<nat>)
    requires op.TableSize? && TypedEffect(EffectOf(env, labels, op), s1, s2)
    ensures op.table < |env.tables| && ExecTable(env, op, held, s1, o) == Normal(s2, held, o)
  {
    Pushed(s1, s2, I32);
  }

  lemma PutsSafe(env: Env, labels: LabelStack, op: Op, held: Tables, s1: Stack, s2: Stack, o: seq<nat>)
    requires (op.TableSet? || op.TableGrow? || op.TableFill?) && TypedEffect(EffectOf(env, labels, op), s1, s2)
    ensures op.table < |env.tables|
    ensures ExecTable(env, op, held, s1, o) == Normal(s2, held + {(op.table, env.tables[op.table])}, o)
  {}

  lemma TableSafe(env: Env, labels: LabelStack, op: Op, held: Tables, s1: Stack, s2: Stack, o: seq<nat>)
    requires OnTable(op) && !op.TableGet? && TypedEffect(EffectOf(env, labels, op), s1, s2)
    ensures op.table < |env.tables|
    ensures ExecTable(env, op, held, s1, o)
            == Normal(s2, if op.TableSize? then held else held + {(op.table, env.tables[op.table])}, o)
  {
    if op.TableSize? {
      SizeSafe(env, labels, op, held, s1, s2, o);
    } else {
      PutsSafe(env, labels, op, held, s1, s2, o);
    }
  }

  lemma SelectTSafe(ctx: Context, labels: LabelStack, t: ValType, held: Tables, s1: Stack, s2: Stack, o: seq<nat>)
    requires Rewrites(s1, [t, t, I32], s2, [t])
    ensures ExecOp(ctx, labels, SelectT(t), held, s1, o) == Normal(s2, held, o)
  {
    var top := s1[|s1| - 3..];
    assert top[0] == t && s1[..|s1| - 2] == s1[..|s1| - 3] + [s1[|s1| - 3]];
  }

  lemma CalledSafe(ctx: Context, labels: LabelStack, f: u32, held: Tables, s1: Stack, s2: Stack, o: seq<nat>)
    requires TypedEffect(EffectOf(ctx.env, labels, Call(f)), s1, s2)
    ensures ExecOp(ctx, labels, Call(f), held, s1, o) == Normal(s2, held, o)
  {
    var ft := ctx.env.types[ctx.env.funcs[f]];
    assert ft.params + [] == ft.params;
  }

  lemma ReferenceSafe(ctx: Context, labels: LabelStack, op: Op, held: Tables, s1: Stack, s2: Stack, o: seq<nat>)
    requires (op.RefNull? || op.RefFunc?) && TypedEffect(EffectOf(ctx.env, labels, op), s1, s2)
    ensures ExecOp(ctx, labels, op, held, s1, o) == Normal(s2, held, o)
  {
    Pushed(s1, s2, if op.RefNull? then op.ref else FuncRef);
  }

  // They do what their effects say, and put no element into a table of another type.
  lemma ArrowRuns(ctx: Context, labels: LabelStack, op: Op, held: Tables, s1: Stack, s2: Stack, o: seq<nat>)
    returns (held': Tables)
    requires HasArrow(op) && !op.Fixed? && !op.TableGet? && !op.CallIndirect?
    requires Kept(ctx, held) && TypedEffect(EffectOf(ctx.env, labels, op), s1, s2)
    ensures ExecOp(ctx, labels, op, held, s1, o) == Normal(s2, held', o) && Kept(ctx, held')
  {
    held' := held;
    if op.LocalGet? || op.LocalSet? || op.LocalTee? {
      LocalSafe(ctx.env, labels, op, held, s1, s2, o);
    } else if op.GlobalGet? || op.GlobalSet? {
      GlobalSafe(ctx.env, labels, op, held, s1, s2, o);
    } else if OnTable(op) {
      TableSafe(ctx.env, labels, op, held, s1, s2, o);
      held' := if op.TableSize? then held else held + {(op.table, ctx.env.tables[op.table])};
    } else if op.SelectT? {
      SelectTSafe(ctx, labels, op.t, held, s1, s2, o);
    } else if op.Call? {
      CalledSafe(ctx, labels, op.func, held, s1, s2, o);
    } else {
      ReferenceSafe(ctx, labels, op, held, s1, s2, o);
    }
  }

  lemma ArrowSafe(ctx: Context, labels: LabelStack, op: Op, held: Tables, s1: Stack, s2: Stack, o: seq<nat>)
    requires Kept(ctx, held)
    requires HasArrow(op) && TypedEffect(EffectOf(ctx.env, labels, op), s1, s2)
    requires Guards(ctx, labels, Holding(s1), op)
    ensures Fine(ctx, labels, ExecOp(ctx, labels, op, held, s1, o), s2)
  {
    if op.Fixed? {
      RowSafe(ctx, labels, op.row, op.imm, held, s1, s2, o);
    } else if op.TableGet? || op.CallIndirect? {
      LookupSafe(ctx, labels, op, held, s1, s2, o);
    } else {
      var held' := ArrowRuns(ctx, labels, op, held, s1, s2, o);
    }
  }

  // A run goes on, or branches, only where the code says it can.
  predicate LiveOp(op: Op, r: Outcome) {
    (r.Normal? ==> OpFalls(op)) && (r.Branching? ==> OpJumps(op, r.rel))
  }

  predicate LiveInstr(i: Instr, r: Outcome) {
    (r.Normal? ==> FallsInstr(i)) && (r.Branching? ==> JumpsInstr(i, r.rel))
  }

  predicate LiveCode(c: Code, r: Outcome) {
    (r.Normal? ==> Falls(c)) && (r.Branching? ==> Jumps(c, r.rel))
  }

  lemma OpLive(ctx: Context, labels: LabelStack, op: Op, held: Tables, st: Stack, o: seq<nat>)
    ensures LiveOp(op, ExecOp(ctx, labels, op, held, st, o))
  {
    if op.BrTable? && o != [] {
      assert o[0] < |op.targets| ==> op.targets[o[0]] in op.targets;
    }
  }

  lemma OpSafe(ctx: Context, labels: LabelStack, op: Op, held: Tables, s1: Stack, s2: Stack, o: seq<nat>)
    requires Kept(ctx, held)
    requires TypedOp(false, ctx.env, labels, op, s1, s2)
    requires Guards(ctx, labels, Holding(s1), op)
    ensures Fine(ctx, labels, ExecOp(ctx, labels, op, held, s1, o), s2)
    ensures LiveOp(op, ExecOp(ctx, labels, op, held, s1, o))
  {
    OpLive(ctx, labels, op, held, s1, o);
    if HasArrow(op) {
      ArrowSafe(ctx, labels, op, held, s1, s2, o);
    } else if op.BrIf? {
      BrIfSafe(ctx, labels, op.rel, held, s1, s2, o);
    } else if op.BrTable? {
      BrTableSafe(ctx, labels, op, held, s1, s2, o);
    } else if op.Drop? {
      var t: ValType :| Rewrites(s1, [t], s2, []);
      RewriteTop(s1, t, s2, []);
    } else if op.RefIsNull? {
      var t: ValType :| Rewrites(s1, [t], s2, [I32]);
      RewriteTop(s1, t, s2, [I32]);
    } else if op.Select? {
      var t: ValType :| Rewrites(s1, [t, t, I32], s2, [t]);
      SelectSafe(ctx, labels, t, held, s1, s2, o);
    }
  }

  // A block whose inside is fine is fine outside.
  lemma LeaveFine(ctx: Context, labels: LabelStack, rest: Stack, results: Stack, carried: Stack, r: Outcome)
    requires Fine(ctx, labels + [carried], r, results)
    requires carried == results || !(r.Branching? && r.rel == 0)
    ensures Fine(ctx, labels, Leave(rest, results, r), rest + results)
  {}

  // Code whose reachable instructions are guarded keeps to its type on every run.
  lemma {:induction false} CodeSafe(
    ctx: Context, labels: LabelStack, c: Code, held: Tables, s1: Stack, s2: Stack, o: seq<nat>)
    requires Kept(ctx, held)
    requires TypedCode(false, ctx.env, labels, c, s1, s2) && LiveGuarded(ctx, labels, Holding(s1), c)
    ensures Fine(ctx, labels, ExecCode(ctx, labels, c, held, s1, o), s2)
    ensures LiveCode(c, ExecCode(ctx, labels, c, held, s1, o))
    decreases |o|, c, 1
  {
    match c
    case Empty =>
    case Snoc(init, last) =>
      var m :| TypedCode(false, ctx.env, labels, init, s1, m) && TypedInstr(false, ctx.env, labels, last, m, s2);
      CodeSafe(ctx, labels, init, held, s1, m, o);
      var r := ExecCode(ctx, labels, init, held, s1, o);
      if r.Normal? {
        LastIsGuarded(ctx, labels, init, last, s1, m);
        InstrSafe(ctx, labels, last, r.held, m, s2, r.left);
      }
  }

  lemma {:induction false} InstrSafe(
    ctx: Context, labels: LabelStack, i: Instr, held: Tables, s1: Stack, s2: Stack, o: seq<nat>)
    requires Kept(ctx, held)
    requires TypedInstr(false, ctx.env, labels, i, s1, s2) && LiveGuardedInstr(ctx, labels, Holding(s1), i)
    ensures Fine(ctx, labels, ExecInstr(ctx, labels, i, held, s1, o), s2)
    ensures LiveInstr(i, ExecInstr(ctx, labels, i, held, s1, o))
    decreases |o|, i, 1
  {
    match i
    case Plain(op) => OpSafe(ctx, labels, op, held, s1, s2, o);
    case Scope(kind, bt, body) =>
      if kind == KBlock {
        BlockSafe(ctx, labels, i, kind, bt, body, held, s1, s2, o);
      } else if kind == KIf {
        IfSafe(ctx, labels, i, kind, bt, body, held, s1, s2, o);
      } else {
        LoopSafe(ctx, labels, i, kind, bt, body, held, s1, s2, o);
      }
    case IfElse(bt, thn, els) => IfElseSafe(ctx, labels, i, bt, thn, els, held, s1, s2, o);
  }

  lemma BlockRuns(
    ctx: Context, labels: LabelStack, i: Instr, bt: BlockType, body: Code, held: Tables, st: Stack, o: seq<nat>)
    requires i == Scope(KBlock, bt, body)
    requires Expand(ctx.env, bt).Some? && Ends(st, Expand(ctx.env, bt).value.params)
    ensures var ft := Expand(ctx.env, bt).value;
      ExecInstr(ctx, labels, i, held, st, o) ==
      Leave(Below(st, ft.params), ft.results, ExecCode(ctx, labels + [ft.results], body, held, ft.params, o))
  {}

  lemma LeaveLive(rest: Stack, results: Stack, r: Outcome, body: Code)
    requires LiveCode(body, r)
    ensures var out := Leave(rest, results, r);
      && (out.Branching? ==> Jumps(body, out.rel + 1))
      && (out.Normal? ==> if r.Branching? && r.rel == 0 then Jumps(body, 0) else Falls(body))
  {}

  lemma {:induction false} BlockSafe(
    ctx: Context, labels: LabelStack, i: Instr, kind: FrameKind, bt: BlockType, body: Code, held: Tables, s1: Stack,
    s2: Stack, o: seq<nat>)
    requires Kept(ctx, held)
    requires TypedInstr(false, ctx.env, labels, i, s1, s2) && LiveGuardedInstr(ctx, labels, Holding(s1), i)
    requires i == Scope(kind, bt, body) && kind == KBlock
    ensures Fine(ctx, labels, ExecInstr(ctx, labels, i, held, s1, o), s2)
    ensures LiveInstr(i, ExecInstr(ctx, labels, i, held, s1, o))
    decreases |o|, i, 0
  {
    var ft := Expand(ctx.env, bt).value;
    var rest, inner := Below(s1, ft.params), labels + [ft.results];
    CodeSafe(ctx, inner, body, held, ft.params, ft.results, o);
    var r := ExecCode(ctx, inner, body, held, ft.params, o);
    assert ExecInstr(ctx, labels, i, held, s1, o) == Leave(rest, ft.results, r) by {
      BlockRuns(ctx, labels, i, bt, body, held, s1, o);
    }
    LeaveFine(ctx, labels, rest, ft.results, ft.results, r);
    LeaveLive(rest, ft.results, r, body);
  }

  lemma IfRuns(
    ctx: Context, labels: LabelStack, i: Instr, bt: BlockType, body: Code, held: Tables, st: Stack, o: seq<nat>)
    requires i == Scope(KIf, bt, body)
    requires Expand(ctx.env, bt).Some? && Ends(st, Expand(ctx.env, bt).value.params + [I32])
    ensures var ft := Expand(ctx.env, bt).value;
      ExecInstr(ctx, labels, i, held, st, o) ==
      if o == [] then Paused(held)
      else
        Leave(Below(st, ft.params + [I32]), ft.results,
              if o[0] != 0 then ExecCode(ctx, labels + [ft.results], body, held, ft.params, o[1..])
              else Normal(ft.params, held, o[1..]))
  {
    EndsInner(st, Expand(ctx.env, bt).value.params, [I32]);
  }

  lemma {:induction false} IfSafe(
    ctx: Context, labels: LabelStack, i: Instr, kind: FrameKind, bt: BlockType, body: Code, held: Tables, s1: Stack,
    s2: Stack, o: seq<nat>)
    requires Kept(ctx, held)
    requires TypedInstr(false, ctx.env, labels, i, s1, s2) && LiveGuardedInstr(ctx, labels, Holding(s1), i)
    requires i == Scope(kind, bt, body) && kind == KIf
    ensures Fine(ctx, labels, ExecInstr(ctx, labels, i, held, s1, o), s2)
    ensures LiveInstr(i, ExecInstr(ctx, labels, i, held, s1, o))
    decreases |o|, i, 0
  {
    var ft := Expand(ctx.env, bt).value;
    var rest, inner := Below(s1, Entry(kind, ft)), labels + [ft.results];
    IfRuns(ctx, labels, i, bt, body, held, s1, o);
    if o != [] {
      CodeSafe(ctx, inner, body, held, ft.params, ft.results, o[1..]);
      var r := ExecCode(ctx, inner, body, held, ft.params, o[1..]);
      LeaveFine(ctx, labels, rest, ft.results, ft.results, r);
      LeaveLive(rest, ft.results, r, body);
    }
  }

  // A loop runs its body once, and then again from its start or on behind it.
  lemma LoopTurns(
    ctx: Context, labels: LabelStack, i: Instr, bt: BlockType, body: Code, held: Tables, st: Stack, o: seq<nat>)
    requires i == Scope(KLoop, bt, body)
    requires Expand(ctx.env, bt).Some? && Ends(st, Expand(ctx.env, bt).value.params)
    ensures o == [] ==> ExecInstr(ctx, labels, i, held, st, o) == Paused(held)
    ensures o != [] ==>
              var ft := Expand(ctx.env, bt).value;
              var rest, r := Below(st, ft.params), ExecCode(ctx, labels + [ft.params], body, held, ft.params, o[1..]);
              ExecInstr(ctx, labels, i, held, st, o) ==
              if r.Branching? && r.rel == 0 then ExecInstr(ctx, labels, i, r.held, rest + r.carried, r.left)
              else Leave(rest, ft.results, r)
  {}

  lemma Rejoin(st: Stack, top: Stack)
    requires Ends(st, top)
    ensures Below(st, top) + top == st
  {}

  lemma {:induction false} LoopSafe(
    ctx: Context, labels: LabelStack, i: Instr, kind: FrameKind, bt: BlockType, body: Code, held: Tables, s1: Stack,
    s2: Stack, o: seq<nat>)
    requires Kept(ctx, held)
    requires TypedInstr(false, ctx.env, labels, i, s1, s2) && LiveGuardedInstr(ctx, labels, Holding(s1), i)
    requires i == Scope(kind, bt, body) && kind == KLoop
    ensures Fine(ctx, labels, ExecInstr(ctx, labels, i, held, s1, o), s2)
    ensures LiveInstr(i, ExecInstr(ctx, labels, i, held, s1, o))
    decreases |o|, i, 0
  {
    var ft := Expand(ctx.env, bt).value;
    var out, inner := ExecInstr(ctx, labels, i, held, s1, o), labels + [ft.params];
    if o == [] {
      LoopTurns(ctx, labels, i, bt, body, held, s1, o);
    } else {
      CodeSafe(ctx, inner, body, held, ft.params, ft.results, o[1..]);
      var r := ExecCode(ctx, inner, body, held, ft.params, o[1..]);
      if r.Branching? && r.rel == 0 {
        InstrSafe(ctx, labels, i, r.held, s1, s2, r.left);
        assert out == ExecInstr(ctx, labels, i, r.held, s1, r.left) by {
          Rejoin(s1, ft.params);
          LoopTurns(ctx, labels, i, bt, body, held, s1, o);
        }
      } else {
        assert out == Leave(Below(s1, ft.params), ft.results, r) by {
          LoopTurns(ctx, labels, i, bt, body, held, s1, o);
        }
        LeaveFine(ctx, labels, Below(s1, ft.params), ft.results, ft.params, r);
        LeaveLive(Below(s1, ft.params), ft.results, r, body);
      }
    }
  }

  lemma IfElseRuns(
    ctx: Context, labels: LabelStack, i: Instr, bt: BlockType, thn: Code, els: Code, held: Tables, st: Stack,
    o: seq<nat>)
    requires i == IfElse(bt, thn, els)
    requires Expand(ctx.env, bt).Some? && Ends(st, Expand(ctx.env, bt).value.params + [I32])
    ensures var ft := Expand(ctx.env, bt).value;
      ExecInstr(ctx, labels, i, held, st, o) ==
      if o == [] then Paused(held)
      else
        Leave(Below(st, ft.params + [I32]), ft.results,
              ExecCode(ctx, labels + [ft.results], if o[0] != 0 then thn else els, held, ft.params, o[1..]))
  {
    EndsInner(st, Expand(ctx.env, bt).value.params, [I32]);
  }

  lemma {:induction false} IfElseSafe(
    ctx: Context, labels: LabelStack, i: Instr, bt: BlockType, thn: Code, els: Code, held: Tables, s1: Stack,
    s2: Stack, o: seq<nat>)
    requires Kept(ctx, held) && i == IfElse(bt, thn, els)
    requires TypedInstr(false, ctx.env, labels, i, s1, s2) && LiveGuardedInstr(ctx, labels, Holding(s1), i)
    ensures Fine(ctx, labels, ExecInstr(ctx, labels, i, held, s1, o), s2)
    ensures LiveInstr(i, ExecInstr(ctx, labels, i, held, s1, o))
    decreases |o|, i, 0
  {
    var ft := Expand(ctx.env, bt).value;
    IfElseRuns(ctx, labels, i, bt, thn, els, held, s1, o);
    if o != [] {
      var arm, rest := if o[0] != 0 then thn else els, Below(s1, ft.params + [I32]);
      CodeSafe(ctx, labels + [ft.results], arm, held, ft.params, ft.results, o[1..]);
      var r := ExecCode(ctx, labels + [ft.results], arm, held, ft.params, o[1..]);
      LeaveFine(ctx, labels, rest, ft.results, ft.results, r);
      LeaveLive(rest, ft.results, r, arm);
    }
  }

  /* The library checks only the arity of branch-table targets. This body is accepted and gets stuck:
     block (result i32) { i32.const; i32.const; br_table 1 default 0 }; unreachable,
     in a function that returns f32. */

  function PushOp(t: ValType): Instr {
    Plain(Fixed(Row(0x41, I32Shape, [], [t]), ConstI32(0)))
  }

  function MismatchInner(): Code {
    Snoc(Snoc(Snoc(Empty, PushOp(I32)), PushOp(I32)), Plain(BrTable([1], 0)))
  }

  function MismatchBody(): Code {
    Snoc(Snoc(Empty, Scope(KBlock, Value(I32), MismatchInner())), Plain(Unreachable))
  }

  lemma ArityIsNotEnough(ctx: Context, held: Tables)
    requires ctx.env.results == [F32]
    ensures Accepts(ctx.env, Flatten(MismatchBody()))
    ensures !TypedBody(true, ctx.env, MismatchBody())
    ensures ExecBody(ctx, MismatchBody(), held, [0]) == Stuck
  {
    var body := MismatchBody();
    MismatchOuterFacts(ctx, held, body);
    AcceptsIffTyped(ctx.env, body);
    AcceptsIffStrictlyTyped(ctx.env, body);
    assert !Uniform(ctx.env, [ctx.env.results], body) by {
      assert [ctx.env.results] + [[I32]] == [[F32], [I32]];
      MismatchNotUniform(ctx.env, [[F32], [I32]], MismatchInner());
      assert !UniformInstr(ctx.env, [ctx.env.results], body.init.last);
    }
  }

  lemma MismatchNotUniform(env: Env, labels: LabelStack, inner: Code)
    requires labels == [[F32], [I32]] && inner == MismatchInner()
    ensures !Uniform(env, labels, inner)
  {
    var ls: seq<u32> := [1];
    assert LabelAt(labels, 0) == [I32] && LabelAt(labels, 1) == [F32] && [I32][0] != [F32][0];
    assert ls[0] == 1 && !TargetsUniform(labels, ls, 0);
  }

  lemma TypedSnoc(ctx: Context, labels: LabelStack, init: Code, i: Instr, s1: Stack, m: Stack, s2: Stack)
    requires TypedCode(false, ctx.env, labels, init, s1, m) && TypedInstr(false, ctx.env, labels, i, m, s2)
    ensures TypedCode(false, ctx.env, labels, Snoc(init, i), s1, s2)
  {}

  lemma PushTyped(ctx: Context, labels: LabelStack, t: ValType, held: Tables, st: Stack, o: seq<nat>)
    ensures TypedInstr(false, ctx.env, labels, PushOp(t), st, st + [t])
    ensures ExecInstr(ctx, labels, PushOp(t), held, st, o) == Normal(st + [t], held, o)
  {
    assert Below(st, []) == st;
  }

  lemma MismatchTable(ctx: Context, labels: LabelStack, held: Tables)
    requires labels == [[F32], [I32]]
    ensures TypedInstr(false, ctx.env, labels, Plain(BrTable([1], 0)), [I32, I32], [I32])
    ensures ExecInstr(ctx, labels, Plain(BrTable([1], 0)), held, [I32, I32], [0]) == Stuck
  {
    assert LabelAt(labels, 0) == [I32] && LabelAt(labels, 1) == [F32];
    assert LabelAt(labels, 0) + [I32] == [I32, I32];
    assert Below([I32, I32], [I32]) == [I32];
    assert [I32][0] != [F32][0];
  }

  lemma MismatchInnerFacts(ctx: Context, labels: LabelStack, held: Tables, inner: Code)
    requires inner == MismatchInner() && labels == [[F32], [I32]]
    ensures TypedCode(false, ctx.env, labels, inner, [], [I32])
    ensures ExecCode(ctx, labels, inner, held, [], [0]) == Stuck
  {
    var one, two := inner.init.init, inner.init;
    PushTyped(ctx, labels, I32, held, [], [0]);
    PushTyped(ctx, labels, I32, held, [I32], [0]);
    assert [] + [I32] == [I32] && [I32] + [I32] == [I32, I32];
    TypedSnoc(ctx, labels, Empty, one.last, [], [], [I32]);
    TypedSnoc(ctx, labels, one, two.last, [], [I32], [I32, I32]);
    MismatchTable(ctx, labels, held);
    TypedSnoc(ctx, labels, two, inner.last, [], [I32, I32], [I32]);
    ExecSnoc(ctx, labels, Empty, one.last, held, [], [0]);
    ExecSnoc(ctx, labels, one, two.last, held, [], [0]);
    ExecSnoc(ctx, labels, two, inner.last, held, [], [0]);
  }

  lemma ExecSnoc(ctx: Context, labels: LabelStack, init: Code, i: Instr, held: Tables, st: Stack, o: seq<nat>)
    ensures var r := ExecCode(ctx, labels, init, held, st, o);
      ExecCode(ctx, labels, Snoc(init, i), held, st, o) ==
      if r.Normal? then ExecInstr(ctx, labels, i, r.held, r.st, r.left) else r
    ensures ExecCode(ctx, labels, Empty, held, st, o) == Normal(st, held, o)
  {}

  // A block around a body that is typed but gets stuck.
  lemma BlockFacts(ctx: Context, outer: LabelStack, held: Tables, inner: Code, block: Instr)
    requires block == Scope(KBlock, Value(I32), inner)
    requires TypedCode(false, ctx.env, outer + [[I32]], inner, [], [I32])
    requires ExecCode(ctx, outer + [[I32]], inner, held, [], [0]) == Stuck
    ensures TypedInstr(false, ctx.env, outer, block, [], [I32])
    ensures ExecInstr(ctx, outer, block, held, [], [0]) == Stuck
  {}

  lemma MismatchOuterFacts(ctx: Context, held: Tables, body: Code)
    requires ctx.env.results == [F32] && body == MismatchBody()
    ensures TypedBody(false, ctx.env, body)
    ensures ExecBody(ctx, body, held, [0]) == Stuck
  {
    var outer, block := [ctx.env.results], body.init.last;
    assert outer + [[I32]] == [[F32], [I32]];
    MismatchInnerFacts(ctx, outer + [[I32]], held, block.body);
    BlockFacts(ctx, outer, held, block.body, block);
    TypedSnoc(ctx, outer, Empty, block, [], [], [I32]);
    TypedSnoc(ctx, outer, body.init, body.last, [], [I32], [F32]);
    ExecSnoc(ctx, outer, Empty, block, held, [], [0]);
    ExecSnoc(ctx, outer, body.init, body.last, held, [], [0]);
  }
}
