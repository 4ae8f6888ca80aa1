/**
 A body for each rule the library does not check in full: accepted, and not valid by the specification.
 Which of them can go wrong when run is said for each. And one it accepts rightly: a table of differing
 labels that no run can reach.
 */
module Departures {
  import opened Ints
  import opened Syntax
  import opened Typing
  import opened Liveness
  import opened Machine
  import opened Exactness
  import opened LiveTyping
  import opened Execution
  import opened Safety
  import opened Contexts
  import opened Specification
  import opened TreeCheck
  import opened Conformance

  // A body of plain instructions.
  function Line(ops: seq<Op>): Code {
    if ops == [] then Empty else Snoc(Line(ops[..|ops| - 1]), Plain(ops[|ops| - 1]))
  }

  // The segments the library's checks go through.
  predicate Traces(env: Env, labels: LabelStack, ops: seq<Op>, gs: seq<Segment>) {
    && |gs| == |ops| + 1 && gs[0] == START
    && forall k | 0 <= k < |ops| :: ApplyEffect(gs[k], EffectOf(env, labels, ops[k])) == Some(gs[k + 1])
  }

  lemma {:induction false} LineChecks(env: Env, labels: LabelStack, ops: seq<Op>, gs: seq<Segment>)
    requires Traces(env, labels, ops, gs)
    ensures CheckCode(env, labels, START, Line(ops)) == Some(gs[|ops|])
    decreases |ops|
  {
    if ops != [] {
      LineChecks(env, labels, ops[..|ops| - 1], gs[..|ops|]);
    }
  }

  lemma {:induction false} LineForbids(ctx: Context, labels: LabelStack, ops: seq<Op>, gs: seq<Segment>, k: nat)
    requires Traces(ctx.env, labels, ops, gs) && k < |ops| && !Permits(ctx, labels, gs[k], ops[k])
    ensures !Permitted(ctx, labels, START, Line(ops))
    decreases |ops|
  {
    var init := ops[..|ops| - 1];
    LineChecks(ctx.env, labels, init, gs[..|ops|]);
    if k < |init| {
      LineForbids(ctx, labels, init, gs[..|ops|], k);
    }
  }

  // Accepted, because the segments lead to the results; not valid, because of instruction k.
  lemma AcceptedNotValid(ctx: Context, ops: seq<Op>, gs: seq<Segment>, k: nat)
    requires Traces(ctx.env, [ctx.env.results], ops, gs) && ClosesWith(gs[|ops|], ctx.env.results)
    requires k < |ops| && !Permits(ctx, [ctx.env.results], gs[k], ops[k])
    ensures Accepts(ctx.env, Flatten(Line(ops))) && !SpecBody(ctx, Line(ops))
  {
    LineChecks(ctx.env, [ctx.env.results], ops, gs);
    LineForbids(ctx, [ctx.env.results], ops, gs, k);
    assert KnownAll([]) == [];
    AcceptsIsCheck(ctx.env, Line(ops));
    ValidIffPermitted(ctx, Line(ops));
  }

  lemma {:induction false} LineFalls(ops: seq<Op>)
    requires forall k | 0 <= k < |ops| :: OpFalls(ops[k])
    ensures Falls(Line(ops))
    decreases |ops|
  {
    if ops != [] {
      LineFalls(ops[..|ops| - 1]);
    }
  }

  lemma {:induction false} LineUnguarded(ctx: Context, labels: LabelStack, ops: seq<Op>, gs: seq<Segment>, k: nat)
    requires Traces(ctx.env, labels, ops, gs) && k < |ops| && !Guards(ctx, labels, gs[k], ops[k])
    requires forall j | 0 <= j < k :: OpFalls(ops[j])
    ensures !LiveGuarded(ctx, labels, START, Line(ops))
    decreases |ops|
  {
    var init := ops[..|ops| - 1];
    LineChecks(ctx.env, labels, init, gs[..|ops|]);
    if k < |init| {
      LineUnguarded(ctx, labels, init, gs[..|ops|], k);
    } else {
      LineFalls(init);
    }
  }

  lemma {:induction false} LineGuarded(ctx: Context, labels: LabelStack, ops: seq<Op>, gs: seq<Segment>)
    requires Traces(ctx.env, labels, ops, gs) && forall k | 0 <= k < |ops| :: Guards(ctx, labels, gs[k], ops[k])
    ensures LiveGuarded(ctx, labels, START, Line(ops))
    decreases |ops|
  {
    if ops != [] {
      LineChecks(ctx.env, labels, ops[..|ops| - 1], gs[..|ops|]);
      LineGuarded(ctx, labels, ops[..|ops| - 1], gs[..|ops|]);
    }
  }

  // Accepted, and some run of it gets to instruction k and goes wrong there.
  lemma AcceptedNotSafe(ctx: Context, ops: seq<Op>, gs: seq<Segment>, k: nat)
    requires Traces(ctx.env, [ctx.env.results], ops, gs) && ClosesWith(gs[|ops|], ctx.env.results)
    requires k < |ops| && !Guards(ctx, [ctx.env.results], gs[k], ops[k]) && forall j | 0 <= j < k :: OpFalls(ops[j])
    ensures Accepts(ctx.env, Flatten(Line(ops))) && !SpecBody(ctx, Line(ops))
    ensures !Safe(ctx, Line(ops))
  {
    AcceptedNotValid(ctx, ops, gs, k);
    LineUnguarded(ctx, [ctx.env.results], ops, gs, k);
    AcceptedRunsSafely(ctx, Line(ops));
  }

  // Accepted, not valid because of instruction k, and safe all the same.
  lemma AcceptedAndSafe(ctx: Context, ops: seq<Op>, gs: seq<Segment>, k: nat)
    requires Traces(ctx.env, [ctx.env.results], ops, gs) && ClosesWith(gs[|ops|], ctx.env.results)
    requires k < |ops| && !Permits(ctx, [ctx.env.results], gs[k], ops[k])
    requires forall j | 0 <= j < |ops| :: Guards(ctx, [ctx.env.results], gs[j], ops[j])
    ensures Accepts(ctx.env, Flatten(Line(ops))) && !SpecBody(ctx, Line(ops))
    ensures Safe(ctx, Line(ops))
  {
    AcceptedNotValid(ctx, ops, gs, k);
    LineGuarded(ctx, [ctx.env.results], ops, gs);
    AcceptedRunsSafely(ctx, Line(ops));
  }

  function Const32(): Op {
    Fixed(Row(0x41, I32Shape, [], [I32]), ConstI32(0))
  }

  // Popping off a segment of known types.
  lemma HoldingPops(ts: seq<ValType>, t: ValType)
    ensures PopAny(Holding(ts + [t])) == Some((Known(t), Holding(ts)))
    ensures PopExpect(Holding(ts + [t]), Known(t)) == Some((Known(t), Holding(ts)))
    ensures PopList(Holding(ts + [t]), [t]) == Some(Holding(ts))
  {
    assert KnownAll(ts + [t])[..|ts|] == KnownAll(ts);
    assert [t][..0] == [];
  }

  // call_indirect through a table of external references.
  lemma ExternTable(ctx: Context, sig: u32, x: u32)
    requires sig < |ctx.env.types| && ctx.env.types[sig] == FuncType([], []) && ctx.env.results == []
    requires x < |ctx.env.tables| && ctx.env.tables[x] == ExternRef
    ensures var c := Line([Const32(), CallIndirect(sig, x)]); Accepts(ctx.env, Flatten(c)) && !SpecBody(ctx, c)
    ensures !Safe(ctx, Line([Const32(), CallIndirect(sig, x)]))
  {
    PushHolding([], [I32]);
    HoldingPops([], I32);
    PushHolding([], []);
    assert [] + [I32] == [I32];
    AcceptedNotSafe(ctx, [Const32(), CallIndirect(sig, x)], [Holding([]), Holding([I32]), Holding([])], 1);
  }

  // ref.is_null on a number.
  lemma NullTestOfNumber(ctx: Context)
    requires ctx.env.results == [I32]
    ensures var c := Line([Const32(), RefIsNull]); Accepts(ctx.env, Flatten(c)) && !SpecBody(ctx, c)
    ensures !Safe(ctx, Line([Const32(), RefIsNull]))
  {
    PushHolding([], [I32]);
    HoldingPops([], I32);
    assert [] + [I32] == [I32];
    assert Push(Holding([]), Known(I32)) == Holding([I32]);
    AcceptedNotSafe(ctx, [Const32(), RefIsNull], [Holding([]), Holding([I32]), Holding([I32])], 1);
  }

  // ref.func of a function the module declares no reference to.
  lemma UndeclaredReference(ctx: Context, f: u32)
    requires f < |ctx.env.funcs| && f !in ctx.refs && ctx.env.results == [FuncRef]
    ensures var c := Line([RefFunc(f)]); Accepts(ctx.env, Flatten(c)) && !SpecBody(ctx, c)
    ensures Safe(ctx, Line([RefFunc(f)]))
  {
    PushHolding([], [FuncRef]);
    HoldingPops([], FuncRef);
    assert [] + [FuncRef] == [FuncRef];
    AcceptedAndSafe(ctx, [RefFunc(f)], [Holding([]), Holding([FuncRef])], 0);
  }

  lemma HoldingSelects(t: ValType)
    ensures SelectSlots(Holding([t] + [t] + [I32])) == Some(Holding([t]))
  {
    HoldingPops([t] + [t], I32);
    HoldingPops([t], t);
    HoldingPops([], t);
    assert [] + [t] == [t];
    assert Push(Holding([]), Known(t)) == Holding([t]);
  }

  lemma SelectStep(env: Env, labels: LabelStack, t: ValType, g: Segment, op: Op)
    requires op == Select && g == Holding([t] + [t] + [I32])
    ensures ApplyEffect(g, EffectOf(env, labels, op)) == Some(Holding([t]))
  {
    HoldingSelects(t);
  }

  lemma Pushing(ts: seq<ValType>, more: seq<ValType>)
    ensures ApplyEffect(Holding(ts), Arrow([], more)) == Some(Holding(ts + more))
  {
    PushHolding(ts, more);
  }

  lemma FourSteps(env: Env, labels: LabelStack, ops: seq<Op>, gs: seq<Segment>)
    requires |ops| == 4 && |gs| == 5 && gs[0] == START
    requires ApplyEffect(gs[0], EffectOf(env, labels, ops[0])) == Some(gs[1])
    requires ApplyEffect(gs[1], EffectOf(env, labels, ops[1])) == Some(gs[2])
    requires ApplyEffect(gs[2], EffectOf(env, labels, ops[2])) == Some(gs[3])
    requires ApplyEffect(gs[3], EffectOf(env, labels, ops[3])) == Some(gs[4])
    ensures Traces(env, labels, ops, gs)
  {}

  // The checks of null, null, a constant and select.
  lemma SelectTraces(env: Env, labels: LabelStack, t: RefType, ops: seq<Op>, gs: seq<Segment>)
    requires ops == [RefNull(t), RefNull(t), Const32(), Select]
    requires gs == [START, Holding([t]), Holding([t] + [t]), Holding([t] + [t] + [I32]), Holding([t])]
    ensures Traces(env, labels, ops, gs)
  {
    assert ApplyEffect(gs[0], EffectOf(env, labels, ops[0])) == Some(gs[1]) by {
      Pushing([], [t]);
      assert [] + [t] == [t] && Holding([]) == START;
    }
    assert ApplyEffect(gs[1], EffectOf(env, labels, ops[1])) == Some(gs[2]) by {
      Pushing([t], [t]);
    }
    assert ApplyEffect(gs[2], EffectOf(env, labels, ops[2])) == Some(gs[3]) by {
      Pushing([t] + [t], [I32]);
    }
    assert ApplyEffect(gs[3], EffectOf(env, labels, ops[3])) == Some(gs[4]) by {
      SelectStep(env, labels, t, gs[3], ops[3]);
    }
    FourSteps(env, labels, ops, gs);
  }

  // Untyped select between references.
  lemma SelectOfReferences(ctx: Context, t: RefType)
    requires ctx.env.results == [t]
    ensures var c := Line([RefNull(t), RefNull(t), Const32(), Select]);
      && Accepts(ctx.env, Flatten(c)) && !SpecBody(ctx, c) && Safe(ctx, c)
  {
    var ops := [RefNull(t), RefNull(t), Const32(), Select];
    var gs := [START, Holding([t]), Holding([t] + [t]), Holding([t] + [t] + [I32]), Holding([t])];
    SelectTraces(ctx.env, [ctx.env.results], t, ops, gs);
    assert ClosesWith(Holding([t]), [t]) by {
      HoldingPops([], t);
      assert [] + [t] == [t];
    }
    assert SlotAt(gs[3], 1) == Known(t);
    AcceptedAndSafe(ctx, ops, gs, 3);
  }

  /* Rows. */

  lemma {:induction false} DeadPops(ts: seq<ValType>)
    ensures PopList(DEAD, ts) == Some(DEAD)
    decreases |ts|
  {
    if ts != [] {
      DeadPops(ts[..|ts| - 1]);
    }
  }

  lemma DeadCloses(ts: seq<ValType>)
    ensures ClosesWith(PushList(DEAD, ts), ts)
  {
    assert [] + ts == ts;
    EndsJoin([], ts);
    PushListRep(DEAD, ts, ts);
    RepCloses(PushList(DEAD, ts), ts);
  }

  // Whatever a row's immediates are, the library lets it through. If they name something that is not there,
  // or elements of another type than the table's, or claim too much alignment or too far an offset, the body
  // is not valid.
  lemma RowUnchecked(ctx: Context, row: Row, imm: Imm)
    requires !RowOk(ctx, row, imm) && RowEffect(ctx.env, row, imm) != Reject && ctx.env.results == row.pushes
    ensures var c := Line([Unreachable, Fixed(row, imm)]); Accepts(ctx.env, Flatten(c)) && !SpecBody(ctx, c)
  {
    var ops := [Unreachable, Fixed(row, imm)];
    var gs := [START, DEAD, PushList(DEAD, row.pushes)];
    var eff := RowEffect(ctx.env, row, imm);
    DeadPops(eff.pops);
    assert ApplyEffect(gs[1], EffectOf(ctx.env, [ctx.env.results], ops[1])) == Some(gs[2]);
    DeadCloses(row.pushes);
    AcceptedNotValid(ctx, ops, gs, 1);
  }

  function TableCopy(x: u32, y: u32): Op {
    Fixed(Row(TABLE_COPY, Idx2Shape, [I32, I32, I32], []), Idx2(x, y))
  }

  // table.copy between tables of different types.
  lemma CopyAcross(ctx: Context, x: u32, y: u32)
    requires x < |ctx.env.tables| && y < |ctx.env.tables| && ctx.env.tables[x] != ctx.env.tables[y]
    requires ctx.env.results == []
    ensures var c := Line([Const32(), Const32(), Const32(), TableCopy(x, y)]);
      && Accepts(ctx.env, Flatten(c)) && !SpecBody(ctx, c) && !Safe(ctx, c)
  {
    var ops := [Const32(), Const32(), Const32(), TableCopy(x, y)];
    var gs := [START, Holding([I32]), Holding([I32, I32]), Holding([I32, I32, I32]), START];
    CopyTraces(ctx.env, [ctx.env.results], x, y, ops, gs);
    AcceptedNotSafe(ctx, ops, gs, 3);
  }

  lemma CopyTraces(env: Env, labels: LabelStack, x: u32, y: u32, ops: seq<Op>, gs: seq<Segment>)
    requires ops == [Const32(), Const32(), Const32(), TableCopy(x, y)]
    requires gs == [START, Holding([I32]), Holding([I32, I32]), Holding([I32, I32, I32]), START]
    ensures Traces(env, labels, ops, gs)
  {
    assert ApplyEffect(gs[0], EffectOf(env, labels, ops[0])) == Some(gs[1]) by {
      Pushing([], [I32]);
      assert [] + [I32] == [I32] && Holding([]) == START;
    }
    assert ApplyEffect(gs[1], EffectOf(env, labels, ops[1])) == Some(gs[2]) by {
      Pushing([I32], [I32]);
      assert [I32] + [I32] == [I32, I32];
    }
    assert ApplyEffect(gs[2], EffectOf(env, labels, ops[2])) == Some(gs[3]) by {
      Pushing([I32, I32], [I32]);
      assert [I32, I32] + [I32] == [I32, I32, I32];
    }
    assert ApplyEffect(gs[3], EffectOf(env, labels, ops[3])) == Some(gs[4]) by {
      RewriteHolds([I32, I32, I32], [I32, I32, I32], [], []);
      assert Holding([]) == START;
    }
    FourSteps(env, labels, ops, gs);
  }

  lemma {:induction false} LinePermits(ctx: Context, labels: LabelStack, ops: seq<Op>, gs: seq<Segment>)
    requires Traces(ctx.env, labels, ops, gs) && forall k | 0 <= k < |ops| :: Permits(ctx, labels, gs[k], ops[k])
    ensures Permitted(ctx, labels, START, Line(ops))
    decreases |ops|
  {
    if ops != [] {
      var init := ops[..|ops| - 1];
      LinePermits(ctx, labels, init, gs[..|ops|]);
      LineChecks(ctx.env, labels, init, gs[..|ops|]);
    }
  }

  function DataDrop(x: u32): Op {
    Fixed(Row(DATA_DROP, IdxShape, [], []), Idx(x))
  }

  // data.drop of a segment that is there, whether it is active or passive, is accepted rightly.
  lemma DropIsFine(ctx: Context, x: u32)
    requires ctx.env.results == [] && x < ctx.datas
    ensures Flatten(Line([DataDrop(x)])) == [Do(DataDrop(x))]
    ensures Accepts(ctx.env, [Do(DataDrop(x))]) && SpecBody(ctx, Line([DataDrop(x)]))
  {
    var ops, gs, labels := [DataDrop(x)], [START, START], [ctx.env.results];
    assert Line([]) == Empty && ops[..0] == [];
    assert START.slots + [] == START.slots;
    LineChecks(ctx.env, labels, ops, gs);
    LinePermits(ctx, labels, ops, gs);
    assert KnownAll([]) == [];
    AcceptsIsCheck(ctx.env, Line(ops));
    ValidIffPermitted(ctx, Line(ops));
  }

  // A branch table a run can reach, whose targets differ in type.
  lemma MixedTable(ctx: Context)
    requires ctx.env.results == [F32]
    ensures Accepts(ctx.env, Flatten(MismatchBody())) && !SpecBody(ctx, MismatchBody())
    ensures !Safe(ctx, MismatchBody())
  {
    ArityIsNotEnough(ctx, {});
    assert Kept(ctx, {}) && !RunsSafely(ctx, MismatchBody(), {}, [0]);
    if SpecBody(ctx, MismatchBody()) {
      ValidRunsSafely(ctx, MismatchBody());
    }
  }

  /* The same table behind unreachable:
     block (result i32) { unreachable; br_table 1 default 0 }; unreachable, in a function that returns f32. */

  function DeadTable(): Code {
    Snoc(Snoc(Empty, Plain(Unreachable)), Plain(BrTable([1], 0)))
  }

  function DeadTableBody(): Code {
    Snoc(Snoc(Empty, Scope(KBlock, Value(I32), DeadTable())), Plain(Unreachable))
  }

  // Valid and safe, though its table is not uniform.
  lemma DeadTableIsFine(ctx: Context)
    requires ctx.env.results == [F32]
    ensures SpecBody(ctx, DeadTableBody()) && Accepts(ctx.env, Flatten(DeadTableBody()))
    ensures !Uniform(ctx.env, [[F32]], DeadTableBody()) && Safe(ctx, DeadTableBody())
  {
    DeadTableIsValid(ctx, DeadTableBody());
    ValidIffPermitted(ctx, DeadTableBody());
    ValidRunsSafely(ctx, DeadTableBody());
    var labels: LabelStack := [[F32]] + [[I32]];
    assert LabelAt(labels, 1) == [F32] && LabelAt(labels, 0) == [I32];
    assert [I32][0] != [F32][0];
    var ls: seq<u32> := [1];
    assert ls[0] == 1 && !TargetsUniform(labels, ls, 0);
    assert !Uniform(ctx.env, labels, DeadTable());
    assert !UniformInstr(ctx.env, [[F32]], DeadTableBody().init.last);
  }

  lemma DeadTableIsValid(ctx: Context, c: Code)
    requires ctx.env.results == [F32] && c == DeadTableBody()
    ensures SpecArm(ctx, [ctx.env.results], c, [], [F32])
  {
    var arm, outer: LabelStack := c.init.last.body, [[F32]];
    DeadArmIsValid(ctx, outer + [[I32]], arm, arm.init.last, arm.last);
    DeadBlockIsValid(ctx, outer, c);
  }

  lemma DeadArmIsValid(ctx: Context, labels: LabelStack, c: Code, a: Instr, b: Instr)
    requires c == Snoc(Snoc(Empty, a), b) && a == Plain(Unreachable) && b == Plain(BrTable([1], 0))
    requires labels == [[F32], [I32]]
    ensures SpecArm(ctx, labels, c, [], [I32])
  {
    var bottoms: Operands, one: Operands, results := [Unknown, Unknown], [Known(I32)], [I32];
    AfterUnreachable(ctx, labels, a, [], bottoms);
    BottomsServe(ctx, labels, b, bottoms, one);
    SpecTwo(ctx, labels, c, a, b, bottoms, one, results);
  }

  // Two operands of bottom type serve the table and its index, whatever one type each target carries.
  lemma BottomsServe(ctx: Context, labels: LabelStack, i: Instr, s1: Operands, s2: Operands)
    requires i == Plain(BrTable([1], 0)) && s1 == [Unknown, Unknown]
    requires |labels| == 2 && |labels[0]| == 1 && |labels[1]| == 1
    ensures SpecInstr(ctx, labels, i, s1, s2)
  {
    assert s1[..1][0..] == [Unknown];
    assert TopFits(s1[..1], labels[0]) && TopFits(s1[..1], labels[1]);
  }

  lemma AfterUnreachable(ctx: Context, labels: LabelStack, i: Instr, s1: Operands, s2: Operands)
    requires i == Plain(Unreachable)
    ensures SpecInstr(ctx, labels, i, s1, s2)
  {}

  lemma SpecTwo(
    ctx: Context, labels: LabelStack, c: Code, a: Instr, b: Instr, m: Operands, s2: Operands, results: seq<ValType>)
    requires c == Snoc(Snoc(Empty, a), b) && SpecInstr(ctx, labels, a, [], m) && SpecInstr(ctx, labels, b, m, s2)
    requires AllFit(s2, results)
    ensures SpecArm(ctx, labels, c, [], results)
  {
    assert KnownAll([]) == [];
    assert SpecCode(ctx, labels, c.init.init, [], []);
    assert SpecCode(ctx, labels, c.init, [], m);
    assert SpecCode(ctx, labels, c, [], s2);
  }

  lemma BlockValid(ctx: Context, labels: LabelStack, block: Instr, body: Code, one: Operands)
    requires block == Scope(KBlock, Value(I32), body) && one == [Known(I32)]
    requires SpecArm(ctx, labels + [[I32]], body, [], [I32])
    ensures SpecInstr(ctx, labels, block, [], one)
  {
    assert KnownAll([I32]) == one && [] + one == one;
  }

  lemma DeadBlockIsValid(ctx: Context, labels: LabelStack, c: Code)
    requires c == DeadTableBody() && SpecArm(ctx, labels + [[I32]], c.init.last.body, [], [I32])
    ensures SpecArm(ctx, labels, c, [], [F32])
  {
    var a, b := c.init.last, c.last;
    BlockValid(ctx, labels, a, a.body, [Known(I32)]);
    AfterUnreachable(ctx, labels, b, [Known(I32)], [Known(F32)]);
    SpecTwo(ctx, labels, c, a, b, [Known(I32)], [Known(F32)], [F32]);
  }
}
