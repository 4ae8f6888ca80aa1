/**
 Exactly when an accepted body is safe: it never gets stuck, and leaves every table with elements of its own
 type, if and only if every instruction a run can reach is guarded. Every place the code says can be reached
 is reached by some list of choices.
 */
module Safety {
  import opened Ints
  import opened Syntax
  import opened Typing
  import opened Liveness
  import opened Machine
  import opened Acceptance
  import opened Contexts
  import opened Specification
  import opened Exactness
  import opened LiveTyping
  import opened Execution

  /* Tables. */

  // Tables that may hold any element of their own type, and no other.
  function Own(ctx: Context): Tables {
    set x: nat | x < |ctx.env.tables| :: (x, ctx.env.tables[x])
  }

  lemma KeptIsOwn(ctx: Context, held: Tables)
    requires Kept(ctx, held) && Own(ctx) <= held
    ensures held == Own(ctx)
  {
    forall p | p in held
      ensures p in Own(ctx)
    {
      assert p == (p.0, ctx.env.tables[p.0]);
    }
  }

  /* Choices that fall through, and choices that jump. */

  // The choices that take a guarded instruction to the next one: no branch is taken, no element is moved, and
  // one of the table's type is found.
  function GoOn(ctx: Context, op: Op): seq<nat> {
    match op
    case BrIf(_) => [0]
    case TableGet(x) => [if x < |ctx.env.tables| && ctx.env.tables[x] == ExternRef then 1 else 0]
    case CallIndirect(_, _) => [0]
    case Fixed(row, imm) => if Moves(row, imm) then [0] else []
    case _ => []
  }

  lemma GoesOn(ctx: Context, labels: LabelStack, op: Op, st: Stack, rest: seq<nat>)
    requires OpFalls(op) && Guards(ctx, labels, Holding(st), op)
    ensures var r := ExecOp(ctx, labels, op, Own(ctx), st, GoOn(ctx, op) + rest);
      r == Stuck || (r.Normal? && r.left == rest)
  {
    var o := GoOn(ctx, op) + rest;
    assert if GoOn(ctx, op) == [] then o == rest else o[1..] == rest;
    if (op.TableGet? || op.CallIndirect?) && op.table < |ctx.env.tables| {
      var x: nat := op.table;
      assert (x, ctx.env.tables[x]) in Own(ctx);
    }
  }

  lemma OpFallsRun(ctx: Context, labels: LabelStack, op: Op, s1: Stack, s2: Stack, rest: seq<nat>) returns (o: seq<nat>)
    requires TypedOp(false, ctx.env, labels, op, s1, s2) && OpFalls(op) && Guards(ctx, labels, Holding(s1), op)
    ensures ExecOp(ctx, labels, op, Own(ctx), s1, o) == Normal(s2, Own(ctx), rest)
  {
    o := GoOn(ctx, op) + rest;
    GoesOn(ctx, labels, op, s1, rest);
    OpSafe(ctx, labels, op, Own(ctx), s1, s2, o);
    OpKeeps(ctx, labels, op, Own(ctx), s1, o);
    KeptIsOwn(ctx, ExecOp(ctx, labels, op, Own(ctx), s1, o).held);
  }

  lemma OpJumpsRun(ctx: Context, labels: LabelStack, op: Op, l: nat, s1: Stack, s2: Stack, rest: seq<nat>)
    returns (o: seq<nat>)
    requires TypedOp(false, ctx.env, labels, op, s1, s2) && OpJumps(op, l)
    requires Guards(ctx, labels, Holding(s1), op)
    ensures l < |labels| && ExecOp(ctx, labels, op, Own(ctx), s1, o) == Branching(l, LabelAt(labels, l), Own(ctx), rest)
  {
    match op
    case Br(_) => o := rest;
    case BrIf(_) =>
      o := [1] + rest;
      assert o[1..] == rest;
      BrIfSafe(ctx, labels, op.rel, Own(ctx), s1, s2, o);
      EndsInner(s1, LabelAt(labels, l), [I32]);
    case BrTable(ls, d) =>
      var n := if d == l then |ls| else var k :| 0 <= k < |ls| && ls[k] == l; k;
      o := [n] + rest;
      assert o[1..] == rest;
      TableTarget(ctx, labels, ls, d, s1, n);
  }

  lemma {:induction false} FallsRun(ctx: Context, labels: LabelStack, c: Code, s1: Stack, s2: Stack, rest: seq<nat>)
    returns (o: seq<nat>)
    requires TypedCode(false, ctx.env, labels, c, s1, s2) && LiveGuarded(ctx, labels, Holding(s1), c) && Falls(c)
    ensures ExecCode(ctx, labels, c, Own(ctx), s1, o) == Normal(s2, Own(ctx), rest)
    decreases c, 0
  {
    match c
    case Empty => o := rest;
    case Snoc(init, last) =>
      var m :| TypedCode(false, ctx.env, labels, init, s1, m) && TypedInstr(false, ctx.env, labels, last, m, s2);
      LastIsGuarded(ctx, labels, init, last, s1, m);
      o := FallsRunInstr(ctx, labels, last, m, s2, rest);
      o := FallsRun(ctx, labels, init, s1, m, o);
  }

  lemma {:induction false} FallsRunInstr(
    ctx: Context, labels: LabelStack, i: Instr, s1: Stack, s2: Stack, rest: seq<nat>)
    returns (o: seq<nat>)
    requires TypedInstr(false, ctx.env, labels, i, s1, s2) && LiveGuardedInstr(ctx, labels, Holding(s1), i)
    requires FallsInstr(i)
    ensures ExecInstr(ctx, labels, i, Own(ctx), s1, o) == Normal(s2, Own(ctx), rest)
    decreases i, 1
  {
    match i
    case Plain(op) => o := OpFallsRun(ctx, labels, op, s1, s2, rest);
    case Scope(kind, bt, body) => o := ScopeFalls(ctx, labels, i, kind, bt, body, s1, s2, rest);
    case IfElse(bt, thn, els) =>
      var ft := Expand(ctx.env, bt).value;
      var inner, first := labels + [ft.results], Falls(thn) || Jumps(thn, 0);
      o := LeavesArm(ctx, inner, if first then thn else els, ft, rest);
      o := Choose(ctx, labels, i, bt, thn, els, first, s1, o);
  }

  lemma {:induction false} ScopeFalls(
    ctx: Context, labels: LabelStack, i: Instr, kind: FrameKind, bt: BlockType, body: Code, s1: Stack, s2: Stack,
    rest: seq<nat>)
    returns (o: seq<nat>)
    requires TypedInstr(false, ctx.env, labels, i, s1, s2) && LiveGuardedInstr(ctx, labels, Holding(s1), i)
    requires FallsInstr(i) && i == Scope(kind, bt, body)
    ensures ExecInstr(ctx, labels, i, Own(ctx), s1, o) == Normal(s2, Own(ctx), rest)
    decreases i, 0
  {
    var ft := Expand(ctx.env, bt).value;
    if kind == KIf {
      o := SkipIf(ctx, labels, i, bt, body, s1, rest);
    } else if kind == KBlock {
      o := LeavesArm(ctx, labels + [ft.results], body, ft, rest);
      o := Enter(ctx, labels, i, kind, bt, body, s1, o);
    } else {
      o := FallsRun(ctx, labels + [ft.params], body, ft.params, ft.results, rest);
      o := Enter(ctx, labels, i, kind, bt, body, s1, o);
    }
  }

  // An if without else goes on behind itself if the condition does not hold.
  lemma SkipIf(ctx: Context, labels: LabelStack, i: Instr, bt: BlockType, body: Code, st: Stack, rest: seq<nat>)
    returns (o: seq<nat>)
    requires i == Scope(KIf, bt, body) && Expand(ctx.env, bt).Some?
    requires var ft := Expand(ctx.env, bt).value; ft.params == ft.results && Ends(st, ft.params + [I32])
    ensures var ft := Expand(ctx.env, bt).value;
      ExecInstr(ctx, labels, i, Own(ctx), st, o) == Normal(Below(st, ft.params + [I32]) + ft.results, Own(ctx), rest)
  {
    o := [0] + rest;
    assert o[1..] == rest;
    IfRuns(ctx, labels, i, bt, body, Own(ctx), st, o);
  }

  // An arm that can be left at its end is left with the results.
  lemma {:induction false} LeavesArm(ctx: Context, inner: LabelStack, arm: Code, ft: FuncType, rest: seq<nat>)
    returns (o: seq<nat>)
    requires inner != [] && LabelAt(inner, 0) == ft.results
    requires TypedCode(false, ctx.env, inner, arm, ft.params, ft.results)
    requires LiveGuarded(ctx, inner, Holding(ft.params), arm)
    requires Falls(arm) || Jumps(arm, 0)
    ensures forall below ::
              Leave(below, ft.results, ExecCode(ctx, inner, arm, Own(ctx), ft.params, o))
              == Normal(below + ft.results, Own(ctx), rest)
    decreases arm, 1
  {
    if Falls(arm) {
      o := FallsRun(ctx, inner, arm, ft.params, ft.results, rest);
    } else {
      o := JumpsRun(ctx, inner, arm, 0, ft.params, ft.results, rest);
    }
  }

  lemma {:induction false} JumpsRun(
    ctx: Context, labels: LabelStack, c: Code, l: nat, s1: Stack, s2: Stack, rest: seq<nat>) returns (o: seq<nat>)
    requires TypedCode(false, ctx.env, labels, c, s1, s2) && LiveGuarded(ctx, labels, Holding(s1), c) && Jumps(c, l)
    ensures l < |labels|
    ensures ExecCode(ctx, labels, c, Own(ctx), s1, o) == Branching(l, LabelAt(labels, l), Own(ctx), rest)
    decreases c, 0
  {
    var init, last := c.init, c.last;
    var m :| TypedCode(false, ctx.env, labels, init, s1, m) && TypedInstr(false, ctx.env, labels, last, m, s2);
    if Jumps(init, l) {
      o := JumpsRun(ctx, labels, init, l, s1, m, rest);
    } else {
      LastIsGuarded(ctx, labels, init, last, s1, m);
      o := JumpsRunInstr(ctx, labels, last, l, m, s2, rest);
      o := FallsRun(ctx, labels, init, s1, m, o);
    }
  }

  lemma {:induction false} JumpsRunInstr(
    ctx: Context, labels: LabelStack, i: Instr, l: nat, s1: Stack, s2: Stack, rest: seq<nat>) returns (o: seq<nat>)
    requires TypedInstr(false, ctx.env, labels, i, s1, s2) && LiveGuardedInstr(ctx, labels, Holding(s1), i)
    requires JumpsInstr(i, l)
    ensures l < |labels|
    ensures ExecInstr(ctx, labels, i, Own(ctx), s1, o) == Branching(l, LabelAt(labels, l), Own(ctx), rest)
    decreases i, 1
  {
    match i
    case Plain(op) => o := OpJumpsRun(ctx, labels, op, l, s1, s2, rest);
    case Scope(kind, bt, body) => o := ScopeJumps(ctx, labels, i, kind, bt, body, l, s1, s2, rest);
    case IfElse(bt, thn, els) => o := ArmJumps(ctx, labels, i, bt, thn, els, l, s1, s2, rest);
  }

  lemma {:induction false} ArmJumps(
    ctx: Context, labels: LabelStack, i: Instr, bt: BlockType, thn: Code, els: Code, l: nat, s1: Stack, s2: Stack,
    rest: seq<nat>)
    returns (o: seq<nat>)
    requires TypedInstr(false, ctx.env, labels, i, s1, s2) && LiveGuardedInstr(ctx, labels, Holding(s1), i)
    requires JumpsInstr(i, l) && i == IfElse(bt, thn, els)
    ensures l < |labels|
    ensures ExecInstr(ctx, labels, i, Own(ctx), s1, o) == Branching(l, LabelAt(labels, l), Own(ctx), rest)
    decreases i, 0
  {
    var ft := Expand(ctx.env, bt).value;
    var inner, first := labels + [ft.results], Jumps(thn, l + 1);
    o := JumpsRun(ctx, inner, if first then thn else els, l + 1, ft.params, ft.results, rest);
    assert LabelAt(inner, l + 1) == LabelAt(labels, l);
    o := Choose(ctx, labels, i, bt, thn, els, first, s1, o);
  }

  lemma {:induction false} ScopeJumps(
    ctx: Context, labels: LabelStack, i: Instr, kind: FrameKind, bt: BlockType, body: Code, l: nat, s1: Stack,
    s2: Stack, rest: seq<nat>)
    returns (o: seq<nat>)
    requires TypedInstr(false, ctx.env, labels, i, s1, s2) && LiveGuardedInstr(ctx, labels, Holding(s1), i)
    requires JumpsInstr(i, l) && i == Scope(kind, bt, body)
    ensures l < |labels|
    ensures ExecInstr(ctx, labels, i, Own(ctx), s1, o) == Branching(l, LabelAt(labels, l), Own(ctx), rest)
    decreases i, 0
  {
    var ft := Expand(ctx.env, bt).value;
    o := JumpsRun(ctx, labels + [LabelOf(kind, ft)], body, l + 1, ft.params, ft.results, rest);
    assert LabelAt(labels + [LabelOf(kind, ft)], l + 1) == LabelAt(labels, l);
    o := Enter(ctx, labels, i, kind, bt, body, s1, o);
  }

  // Choices inside the body of a block, made choices that lead into it.
  lemma Enter(
    ctx: Context, labels: LabelStack, i: Instr, kind: FrameKind, bt: BlockType, body: Code, st: Stack, o: seq<nat>)
    returns (o': seq<nat>)
    requires i == Scope(kind, bt, body)
    requires Expand(ctx.env, bt).Some? && Ends(st, Entry(kind, Expand(ctx.env, bt).value))
    ensures var ft := Expand(ctx.env, bt).value;
      var r := ExecCode(ctx, labels + [LabelOf(kind, ft)], body, Own(ctx), ft.params, o);
      !(kind == KLoop && r.Branching? && r.rel == 0) ==>
        ExecInstr(ctx, labels, i, Own(ctx), st, o') == Leave(Below(st, Entry(kind, ft)), ft.results, r)
  {
    o' := if kind == KBlock then o else [1] + o;
    assert ([1] + o)[1..] == o;
    if kind == KIf {
      IfRuns(ctx, labels, i, bt, body, Own(ctx), st, o');
    } else if kind == KBlock {
      BlockRuns(ctx, labels, i, bt, body, Own(ctx), st, o');
    } else {
      LoopTurns(ctx, labels, i, bt, body, Own(ctx), st, o');
    }
  }

  // The same for one arm of an if.
  lemma Choose(
    ctx: Context, labels: LabelStack, i: Instr, bt: BlockType, thn: Code, els: Code, first: bool, st: Stack,
    o: seq<nat>)
    returns (o': seq<nat>)
    requires i == IfElse(bt, thn, els)
    requires Expand(ctx.env, bt).Some? && Ends(st, Expand(ctx.env, bt).value.params + [I32])
    ensures var ft := Expand(ctx.env, bt).value;
      ExecInstr(ctx, labels, i, Own(ctx), st, o') ==
      Leave(Below(st, ft.params + [I32]), ft.results,
            ExecCode(ctx, labels + [ft.results], if first then thn else els, Own(ctx), ft.params, o))
  {
    o' := [if first then 1 else 0] + o;
    assert o'[1..] == o;
    IfElseRuns(ctx, labels, i, bt, thn, els, Own(ctx), st, o');
  }

  /* Choices that reach what is not guarded. */

  // Stuck, or with an element in a table of another type, from where it is never taken out again.
  predicate Wrong(ctx: Context, r: Outcome) {
    r == Stuck || !Kept(ctx, r.held)
  }

  lemma TableSticks(ctx: Context, labels: LabelStack, ls: seq<u32>, d: u32, s1: Stack, k: nat)
    requires TargetsOk(labels, ls, d) && Ends(s1, LabelAt(labels, d) + [I32])
    requires k < |ls| && PopList(Holding(s1), LabelAt(labels, ls[k]) + [I32]).None?
    ensures ExecOp(ctx, labels, BrTable(ls, d), Own(ctx), s1, [k]) == Stuck
  {
    var want := LabelAt(labels, ls[k]);
    assert Ends(s1, [I32]) by {
      EndsInner(s1, LabelAt(labels, d), [I32]);
    }
    assert !Ends(Below(s1, [I32]), want) by {
      PopHolding(s1, want + [I32]);
      if Ends(Below(s1, [I32]), want) {
        EndsOuter(s1, want, [I32]);
      }
    }
  }

  lemma EndsOuter(s: Stack, a: Stack, b: Stack)
    requires Ends(s, b) && Ends(Below(s, b), a)
    ensures Ends(s, a + b)
  {
    var rest := Below(s, b);
    EndsSplit(s, b);
    EndsSplit(rest, a);
    assert s == Below(rest, a) + (a + b);
  }

  // Elements moved between tables of different types end up where they do not belong.
  lemma MovedMixes(ctx: Context, row: Row, imm: Imm)
    requires Named(ctx, row, imm) && !SameElements(ctx, row, imm)
    ensures Moves(row, imm) && !Kept(ctx, Moved(ctx, row, imm, Own(ctx)))
  {
    if row.opcode == TABLE_INIT {
      assert (imm.b, ctx.elems[imm.a]) in Moved(ctx, row, imm, Own(ctx));
    } else {
      var y: nat := imm.b;
      assert (y, ctx.env.tables[y]) in Own(ctx);
      assert (imm.a, ctx.env.tables[y]) in Moved(ctx, row, imm, Own(ctx));
    }
  }

  lemma OpGoesWrong(ctx: Context, labels: LabelStack, op: Op, s1: Stack, s2: Stack) returns (o: seq<nat>)
    requires TypedOp(false, ctx.env, labels, op, s1, s2) && !Guards(ctx, labels, Holding(s1), op)
    ensures Wrong(ctx, ExecOp(ctx, labels, op, Own(ctx), s1, o))
  {
    o := [1];
    if op.CallIndirect? {
      var x: nat := op.table;
      assert (x, ctx.env.tables[x]) in Own(ctx);
    } else if op.Fixed? && Named(ctx, op.row, op.imm) {
      MovedMixes(ctx, op.row, op.imm);
    } else if op.BrTable? {
      var k :| 0 <= k < |op.targets| && op.targets[k] < |labels|
               && PopList(Holding(s1), LabelAt(labels, op.targets[k]) + [I32]).None?;
      o := [k];
      TableSticks(ctx, labels, op.targets, op.default, s1, k);
    }
  }

  lemma {:induction false} GoesWrong(ctx: Context, labels: LabelStack, c: Code, s1: Stack, s2: Stack)
    returns (o: seq<nat>)
    requires TypedCode(false, ctx.env, labels, c, s1, s2) && !LiveGuarded(ctx, labels, Holding(s1), c)
    ensures Wrong(ctx, ExecCode(ctx, labels, c, Own(ctx), s1, o))
    decreases c, 0
  {
    var init, last := c.init, c.last;
    var m :| TypedCode(false, ctx.env, labels, init, s1, m) && TypedInstr(false, ctx.env, labels, last, m, s2);
    if !LiveGuarded(ctx, labels, Holding(s1), init) {
      o := GoesWrong(ctx, labels, init, s1, m);
      var r := ExecCode(ctx, labels, init, Own(ctx), s1, o);
      if r.Normal? {
        InstrKeeps(ctx, labels, last, r.held, r.st, r.left);
        LaterWrong(ctx, r, ExecInstr(ctx, labels, last, r.held, r.st, r.left));
      }
    } else {
      LastIsGuarded(ctx, labels, init, last, s1, m);
      o := GoesWrongInstr(ctx, labels, last, m, s2);
      o := FallsRun(ctx, labels, init, s1, m, o);
    }
  }

  lemma {:induction false} GoesWrongInstr(ctx: Context, labels: LabelStack, i: Instr, s1: Stack, s2: Stack)
    returns (o: seq<nat>)
    requires TypedInstr(false, ctx.env, labels, i, s1, s2) && !LiveGuardedInstr(ctx, labels, Holding(s1), i)
    ensures Wrong(ctx, ExecInstr(ctx, labels, i, Own(ctx), s1, o))
    decreases i, 1
  {
    match i
    case Plain(op) => o := OpGoesWrong(ctx, labels, op, s1, s2);
    case Scope(kind, bt, body) => o := ScopeGoesWrong(ctx, labels, i, kind, bt, body, s1, s2);
    case IfElse(bt, thn, els) =>
      var ft := Expand(ctx.env, bt).value;
      var inner, first := labels + [ft.results], !LiveGuarded(ctx, labels + [ft.results], Holding(ft.params), thn);
      o := GoesWrong(ctx, inner, if first then thn else els, ft.params, ft.results);
      LeaveWrong(ctx, Below(s1, Entry(KIf, ft)), ft.results,
                 ExecCode(ctx, inner, if first then thn else els, Own(ctx), ft.params, o));
      o := Choose(ctx, labels, i, bt, thn, els, first, s1, o);
  }

  lemma LeaveWrong(ctx: Context, rest: Stack, results: Stack, r: Outcome)
    requires Wrong(ctx, r)
    ensures Wrong(ctx, Leave(rest, results, r))
  {}

  lemma {:induction false} ScopeGoesWrong(
    ctx: Context, labels: LabelStack, i: Instr, kind: FrameKind, bt: BlockType, body: Code, s1: Stack, s2: Stack)
    returns (o: seq<nat>)
    requires TypedInstr(false, ctx.env, labels, i, s1, s2) && !LiveGuardedInstr(ctx, labels, Holding(s1), i)
    requires i == Scope(kind, bt, body)
    ensures Wrong(ctx, ExecInstr(ctx, labels, i, Own(ctx), s1, o))
    decreases i, 0
  {
    var ft := Expand(ctx.env, bt).value;
    o := GoesWrong(ctx, labels + [LabelOf(kind, ft)], body, ft.params, ft.results);
    if kind == KLoop {
      o := LoopGoesWrong(ctx, labels, i, bt, body, s1, o);
    } else {
      LeaveWrong(ctx, Below(s1, Entry(kind, ft)), ft.results,
                 ExecCode(ctx, labels + [LabelOf(kind, ft)], body, Own(ctx), ft.params, o));
      o := Enter(ctx, labels, i, kind, bt, body, s1, o);
    }
  }

  // What went wrong in one turn of a loop is not put right by the next.
  lemma LoopGoesWrong(ctx: Context, labels: LabelStack, i: Instr, bt: BlockType, body: Code, st: Stack, o: seq<nat>)
    returns (o': seq<nat>)
    requires i == Scope(KLoop, bt, body)
    requires Expand(ctx.env, bt).Some? && Ends(st, Expand(ctx.env, bt).value.params)
    requires var ft := Expand(ctx.env, bt).value;
      Wrong(ctx, ExecCode(ctx, labels + [ft.params], body, Own(ctx), ft.params, o))
    ensures Wrong(ctx, ExecInstr(ctx, labels, i, Own(ctx), st, o'))
  {
    var ft := Expand(ctx.env, bt).value;
    var r := ExecCode(ctx, labels + [ft.params], body, Own(ctx), ft.params, o);
    assert ([1] + o)[1..] == o;
    o' := [1] + o;
    LoopTurns(ctx, labels, i, bt, body, Own(ctx), st, o');
    if r.Branching? && r.rel == 0 {
      InstrKeeps(ctx, labels, i, r.held, Below(st, ft.params) + r.carried, r.left);
      LaterWrong(ctx, r, ExecInstr(ctx, labels, i, r.held, Below(st, ft.params) + r.carried, r.left));
    } else {
      LeaveWrong(ctx, Below(st, ft.params), ft.results, r);
    }
  }

  lemma LaterWrong(ctx: Context, r: Outcome, r': Outcome)
    requires Wrong(ctx, r) && !r.Stuck? && Keeps(r.held, r')
    ensures Wrong(ctx, r')
  {}

  // What an element of another type does: some choice finds it, and it stands for an operand of the table's
  // type, or is called though it is no function.
  lemma ForeignElement(
    ctx: Context, labels: LabelStack, held: Tables, x: u32, t: RefType, sig: u32, st: Stack, rest: seq<nat>)
    returns (o: seq<nat>)
    requires x < |ctx.env.tables| && (x as nat, t) in held && t != ctx.env.tables[x]
    ensures ExecOp(ctx, labels, TableGet(x), held, st + [I32], o) == Normal(st + [t], held, rest)
    ensures ctx.env.tables[x] == FuncRef ==> ExecOp(ctx, labels, CallIndirect(sig, x), held, st + [I32], o) == Stuck
  {
    o := [if t == FuncRef then 0 else 1] + rest;
    assert o[1..] == rest && Below(st + [I32], [I32]) == st;
  }

  /* The exact condition. */

  // Not stuck, every table with elements of its own type, and with the declared results if it returns.
  predicate RunsSafely(ctx: Context, c: Code, held: Tables, o: seq<nat>) {
    var r := ExecBody(ctx, c, held, o);
    r != Stuck && Kept(ctx, r.held) && (r.Normal? ==> r.st == ctx.env.results)
  }

  // On every run, whatever elements of their own types the tables hold at first.
  ghost predicate Safe(ctx: Context, c: Code) {
    forall held, o | Kept(ctx, held) :: RunsSafely(ctx, c, held, o)
  }

  lemma BodySafe(ctx: Context, c: Code, held: Tables, o: seq<nat>)
    requires TypedBody(false, ctx.env, c) && LiveGuarded(ctx, [ctx.env.results], Holding([]), c) && Kept(ctx, held)
    ensures RunsSafely(ctx, c, held, o)
  {
    CodeSafe(ctx, [ctx.env.results], c, held, [], ctx.env.results, o);
  }

  lemma BodyGoesWrong(ctx: Context, c: Code)
    requires TypedBody(false, ctx.env, c) && !LiveGuarded(ctx, [ctx.env.results], Holding([]), c)
    ensures !Safe(ctx, c)
  {
    var o := GoesWrong(ctx, [ctx.env.results], c, [], ctx.env.results);
    assert Kept(ctx, Own(ctx)) && !RunsSafely(ctx, c, Own(ctx), o);
  }

  // An accepted body keeps to its types on every run if and only if every instruction that can be reached
  // is guarded.
  lemma AcceptedRunsSafely(ctx: Context, c: Code)
    requires Accepts(ctx.env, Flatten(c))
    ensures Safe(ctx, c) <==> LiveGuarded(ctx, [ctx.env.results], START, c)
  {
    AcceptsIffTyped(ctx.env, c);
    assert Holding([]) == START;
    if LiveGuarded(ctx, [ctx.env.results], START, c) {
      forall held, o | Kept(ctx, held)
        ensures RunsSafely(ctx, c, held, o)
      {
        BodySafe(ctx, c, held, o);
      }
    } else {
      BodyGoesWrong(ctx, c);
    }
  }

  /* What the guards say of branch tables. */

  lemma {:induction false} GuardedIsUniform(ctx: Context, labels: LabelStack, c: Code, s1: Stack, s2: Stack)
    requires TypedCode(false, ctx.env, labels, c, s1, s2) && LiveGuarded(ctx, labels, Holding(s1), c)
    ensures LiveUniform(ctx.env, labels, c)
    decreases c
  {
    match c
    case Empty =>
    case Snoc(init, last) =>
      var m :| TypedCode(false, ctx.env, labels, init, s1, m) && TypedInstr(false, ctx.env, labels, last, m, s2);
      GuardedIsUniform(ctx, labels, init, s1, m);
      if Falls(init) {
        LastIsGuarded(ctx, labels, init, last, s1, m);
        GuardedInstrIsUniform(ctx, labels, last, m, s2);
      }
  }

  lemma {:induction false} GuardedInstrIsUniform(ctx: Context, labels: LabelStack, i: Instr, s1: Stack, s2: Stack)
    requires TypedInstr(false, ctx.env, labels, i, s1, s2) && LiveGuardedInstr(ctx, labels, Holding(s1), i)
    ensures LiveUniformInstr(ctx.env, labels, i)
    decreases i
  {
    match i
    case Plain(op) =>
      if op.BrTable? {
        GuardedTable(ctx, labels, op.targets, op.default, s1);
      }
    case Scope(kind, bt, body) =>
      var ft := Expand(ctx.env, bt).value;
      GuardedIsUniform(ctx, labels + [LabelOf(kind, ft)], body, ft.params, ft.results);
    case IfElse(bt, thn, els) =>
      var ft := Expand(ctx.env, bt).value;
      GuardedIsUniform(ctx, labels + [ft.results], thn, ft.params, ft.results);
      GuardedIsUniform(ctx, labels + [ft.results], els, ft.params, ft.results);
  }

  lemma GuardedTable(ctx: Context, labels: LabelStack, ls: seq<u32>, d: u32, s: Stack)
    requires TargetsOk(labels, ls, d) && Ends(s, LabelAt(labels, d) + [I32])
    requires Guards(ctx, labels, Holding(s), BrTable(ls, d))
    ensures TargetsUniform(labels, ls, d)
  {
    EndsInner(s, LabelAt(labels, d), [I32]);
    forall k | 0 <= k < |ls|
      ensures LabelAt(labels, ls[k]) == LabelAt(labels, d)
    {
      PopHolding(s, LabelAt(labels, ls[k]) + [I32]);
      EndsInner(s, LabelAt(labels, ls[k]), [I32]);
    }
  }
}
