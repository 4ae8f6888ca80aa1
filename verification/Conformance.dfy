/**
 The library's checks against the specification's rules: a body is valid if and only if the library
 accepts it and, at every instruction it checked, the operands it saw also meet the tighter rule.
 */
module Conformance {
  import opened Ints
  import opened Syntax
  import opened Typing
  import opened Liveness
  import opened Machine
  import opened Execution
  import opened Safety
  import opened Contexts
  import opened Specification
  import opened TreeCheck
  import opened OperandRules

  /* What the library would have to check besides, over a whole body. */

  // Every instruction the library checks meets the tighter rule.
  predicate Permitted(ctx: Context, labels: LabelStack, g: Segment, c: Code)
    decreases c
  {
    match c
    case Empty => true
    case Snoc(init, last) =>
      && Permitted(ctx, labels, g, init)
      && match CheckCode(ctx.env, labels, g, init) case None => true case Some(m) => PermittedInstr(ctx, labels, m, last)
  }

  predicate PermittedInstr(ctx: Context, labels: LabelStack, g: Segment, i: Instr)
    decreases i
  {
    match i
    case Plain(op) => Permits(ctx, labels, g, op)
    case Scope(kind, bt, body) =>
      Expand(ctx.env, bt).Some? ==>
        var ft := Expand(ctx.env, bt).value;
        Permitted(ctx, labels + [LabelOf(kind, ft)], Holding(ft.params), body)
    case IfElse(bt, thn, els) =>
      Expand(ctx.env, bt).Some? ==>
        var ft := Expand(ctx.env, bt).value;
        var start := Holding(ft.params);
        Permitted(ctx, labels + [ft.results], start, thn) && Permitted(ctx, labels + [ft.results], start, els)
  }

  /* Whole bodies: a valid body is accepted and permitted. */

  lemma CloseComplete(g: Segment, s: Operands, results: seq<ValType>)
    requires Covers(g, s) && AllFit(s, results)
    ensures ClosesWith(g, results)
  {
    assert s[0..] == s;
    CoverFits(g, s, results);
    PopListAt(g, results);
  }

  lemma {:induction false} CodeValid(ctx: Context, labels: LabelStack, g: Segment, c: Code, s1: Operands, s2: Operands)
    requires Covers(g, s1) && SpecCode(ctx, labels, c, s1, s2)
    ensures Permitted(ctx, labels, g, c)
    ensures var r := CheckCode(ctx.env, labels, g, c); r.Some? && Covers(r.value, s2)
    decreases c, 0
  {
    match c
    case Empty =>
    case Snoc(init, last) =>
      var m :| SpecCode(ctx, labels, init, s1, m) && SpecInstr(ctx, labels, last, m, s2);
      CodeValid(ctx, labels, g, init, s1, m);
      InstrValid(ctx, labels, CheckCode(ctx.env, labels, g, init).value, last, m, s2);
  }

  lemma {:induction false} InstrValid(ctx: Context, labels: LabelStack, g: Segment, i: Instr, s1: Operands, s2: Operands)
    requires Covers(g, s1) && SpecInstr(ctx, labels, i, s1, s2)
    ensures PermittedInstr(ctx, labels, g, i)
    ensures var r := CheckInstr(ctx.env, labels, g, i); r.Some? && Covers(r.value, s2)
    decreases i, 0
  {
    match i
    case Plain(op) => OpComplete(ctx, labels, g, op, s1, s2);
    case Scope(kind, bt, body) =>
      ScopeIs(ctx, labels, kind, bt, body, s1, s2);
      var ft := Expand(ctx.env, bt).value;
      ArrowComplete(g, s1, Entry(kind, ft), s2, ft.results);
      ArmValid(ctx, labels + [LabelOf(kind, ft)], body, ft);
    case IfElse(bt, thn, els) =>
      IfElseIs(ctx, labels, bt, thn, els, s1, s2);
      var ft := Expand(ctx.env, bt).value;
      ArrowComplete(g, s1, Entry(KIf, ft), s2, ft.results);
      ArmValid(ctx, labels + [ft.results], thn, ft);
      ArmValid(ctx, labels + [ft.results], els, ft);
  }

  lemma {:induction false} ArmValid(ctx: Context, labels: LabelStack, c: Code, ft: FuncType)
    requires SpecArm(ctx, labels, c, ft.params, ft.results)
    ensures Permitted(ctx, labels, Holding(ft.params), c) && CheckArm(ctx.env, labels, c, ft)
    decreases c, 1
  {
    var start := Holding(ft.params);
    var s2 :| SpecCode(ctx, labels, c, KnownAll(ft.params), s2) && AllFit(s2, ft.results);
    CodeValid(ctx, labels, start, c, KnownAll(ft.params), s2);
    CloseComplete(CheckCode(ctx.env, labels, start, c).value, s2, ft.results);
  }

  /* ... and an accepted and permitted body is valid. */

  // The operands that fill a closing segment up to its results.
  lemma CloseSound(g: Segment, results: seq<ValType>) returns (n: nat)
    requires ClosesWith(g, results)
    ensures AllFit(Pad(n, g), results) && (n > 0 ==> g.poly)
  {
    PopListAt(g, results);
    n := |results| - |g.slots|;
    PadFits(g, results, n);
    assert Pad(n, g)[0..] == Pad(n, g);
  }

  lemma {:induction false} ValidCode(ctx: Context, labels: LabelStack, g: Segment, c: Code, n: nat) returns (m: nat)
    requires Permitted(ctx, labels, g, c) && CheckCode(ctx.env, labels, g, c).Some?
    requires n > 0 ==> CheckCode(ctx.env, labels, g, c).value.poly
    ensures SpecCode(ctx, labels, c, Pad(m, g), Pad(n, CheckCode(ctx.env, labels, g, c).value)) && (m > 0 ==> g.poly)
    decreases c, 0
  {
    match c
    case Empty => m := n;
    case Snoc(init, last) =>
      var mid := CheckCode(ctx.env, labels, g, init).value;
      var k := ValidInstr(ctx, labels, mid, last, n);
      m := ValidCode(ctx, labels, g, init, k);
  }

  lemma {:induction false} ValidInstr(ctx: Context, labels: LabelStack, g: Segment, i: Instr, n: nat) returns (m: nat)
    requires PermittedInstr(ctx, labels, g, i) && CheckInstr(ctx.env, labels, g, i).Some?
    requires n > 0 ==> CheckInstr(ctx.env, labels, g, i).value.poly
    ensures SpecInstr(ctx, labels, i, Pad(m, g), Pad(n, CheckInstr(ctx.env, labels, g, i).value)) && (m > 0 ==> g.poly)
    decreases i, 0
  {
    match i
    case Plain(op) => m := OpSound(ctx, labels, g, op, n);
    case Scope(kind, bt, body) =>
      var ft := Expand(ctx.env, bt).value;
      PopListAt(g, Entry(kind, ft));
      m := ArrowSound(g, Entry(kind, ft), ft.results, n);
      ValidArm(ctx, labels + [LabelOf(kind, ft)], body, ft);
      ScopeIs(ctx, labels, kind, bt, body, Pad(m, g), Pad(n, CheckInstr(ctx.env, labels, g, i).value));
    case IfElse(bt, thn, els) =>
      var ft := Expand(ctx.env, bt).value;
      PopListAt(g, Entry(KIf, ft));
      m := ArrowSound(g, Entry(KIf, ft), ft.results, n);
      ValidArm(ctx, labels + [ft.results], thn, ft);
      ValidArm(ctx, labels + [ft.results], els, ft);
      IfElseIs(ctx, labels, bt, thn, els, Pad(m, g), Pad(n, CheckInstr(ctx.env, labels, g, i).value));
  }

  lemma {:induction false} ValidArm(ctx: Context, labels: LabelStack, c: Code, ft: FuncType)
    requires Permitted(ctx, labels, Holding(ft.params), c) && CheckArm(ctx.env, labels, c, ft)
    ensures SpecArm(ctx, labels, c, ft.params, ft.results)
    decreases c, 1
  {
    var start := Holding(ft.params);
    var n := CloseSound(CheckCode(ctx.env, labels, start, c).value, ft.results);
    var m := ValidCode(ctx, labels, start, c, n);
    assert Pad(0, start) == KnownAll(ft.params);
  }

  /* The theorem. */

  // A body is valid by the specification if and only if the library accepts it and every instruction
  // the library checked also meets the tighter rule.
  lemma ValidIffPermitted(ctx: Context, c: Code)
    ensures SpecBody(ctx, c)
            <==> Accepts(ctx.env, Flatten(c)) && Permitted(ctx, [ctx.env.results], START, c)
  {
    var ft := FuncType([], ctx.env.results);
    AcceptsIsCheck(ctx.env, c);
    assert KnownAll(ft.params) == [];
    if SpecBody(ctx, c) {
      ArmValid(ctx, [ctx.env.results], c, ft);
    }
    if Accepts(ctx.env, Flatten(c)) && Permitted(ctx, [ctx.env.results], START, c) {
      ValidArm(ctx, [ctx.env.results], c, ft);
    }
  }

  /* Valid bodies are safe. */

  predicate AllKnown(s: Operands) {
    forall k | 0 <= k < |s| :: s[k].Known?
  }

  lemma KnownTable(labels: LabelStack, ls: seq<u32>, d: u32, s1: Operands)
    requires AllKnown(s1) && SpecTable(labels, ls, d, s1)
    ensures TargetsUniform(labels, ls, d)
  {
    var s, want := s1[..|s1| - 1], LabelAt(labels, d);
    forall k | 0 <= k < |ls|
      ensures LabelAt(labels, ls[k]) == want
    {
      var top, got := s[|s| - |want|..], LabelAt(labels, ls[k]);
      forall j | 0 <= j < |want|
        ensures got[j] == want[j]
      {
        assert top[j].Known? && Fits(top[j], want[j]) && Fits(top[j], got[j]);
      }
    }
  }

  lemma ArrowIsKnown(s1: Operands, pops: seq<ValType>, s2: Operands, pushes: seq<ValType>)
    requires AllKnown(s1) && SpecArrow(s1, pops, s2, pushes)
    ensures AllKnown(s2)
  {}

  lemma OpIsKnown(ctx: Context, labels: LabelStack, op: Op, s1: Operands, s2: Operands)
    requires SpecOp(ctx, labels, op, s1, s2) && AllKnown(s1)
    ensures LiveUniformInstr(ctx.env, labels, Plain(op)) && (OpFalls(op) ==> AllKnown(s2))
  {
    if op.BrTable? {
      KnownTable(labels, op.targets, op.default, s1);
    } else if HasArrow(op) || op.BrIf? {
      SpecOpIs(ctx, labels, op, s1, s2);
      EffectIsKnown(EffectOf(ctx.env, labels, op), s1, s2);
    } else if op.Select? {
      assert forall k | 0 <= k < |s1| - 3 :: s2[k] == s2[..|s1| - 3][k];
    }
  }

  lemma EffectIsKnown(eff: Effect, s1: Operands, s2: Operands)
    requires SpecEffect(eff, s1, s2) && eff.Arrow? && AllKnown(s1)
    ensures AllKnown(s2)
  {
    ArrowIsKnown(s1, eff.pops, s2, eff.pushes);
  }

  // Where a run can get to, no operand is bottom, and so the tables there are uniform.
  lemma {:induction false} LiveIsKnown(ctx: Context, labels: LabelStack, c: Code, s1: Operands, s2: Operands)
    requires SpecCode(ctx, labels, c, s1, s2) && AllKnown(s1)
    ensures LiveUniform(ctx.env, labels, c) && (Falls(c) ==> AllKnown(s2))
    decreases c, 0
  {
    match c
    case Empty =>
    case Snoc(init, last) =>
      var m :| SpecCode(ctx, labels, init, s1, m) && SpecInstr(ctx, labels, last, m, s2);
      LiveIsKnown(ctx, labels, init, s1, m);
      if Falls(init) {
        LiveIsKnownInstr(ctx, labels, last, m, s2);
      }
  }

  lemma {:induction false} LiveIsKnownInstr(ctx: Context, labels: LabelStack, i: Instr, s1: Operands, s2: Operands)
    requires SpecInstr(ctx, labels, i, s1, s2) && AllKnown(s1)
    ensures LiveUniformInstr(ctx.env, labels, i) && (FallsInstr(i) ==> AllKnown(s2))
    decreases i, 0
  {
    match i
    case Plain(op) => OpIsKnown(ctx, labels, op, s1, s2);
    case Scope(kind, bt, body) =>
      ScopeIs(ctx, labels, kind, bt, body, s1, s2);
      var ft := Expand(ctx.env, bt).value;
      ArrowIsKnown(s1, Entry(kind, ft), s2, ft.results);
      ArmIsKnown(ctx, labels + [LabelOf(kind, ft)], body, ft);
    case IfElse(bt, thn, els) =>
      IfElseIs(ctx, labels, bt, thn, els, s1, s2);
      var ft := Expand(ctx.env, bt).value;
      ArrowIsKnown(s1, Entry(KIf, ft), s2, ft.results);
      ArmIsKnown(ctx, labels + [ft.results], thn, ft);
      ArmIsKnown(ctx, labels + [ft.results], els, ft);
  }

  lemma {:induction false} ArmIsKnown(ctx: Context, labels: LabelStack, c: Code, ft: FuncType)
    requires SpecArm(ctx, labels, c, ft.params, ft.results)
    ensures LiveUniform(ctx.env, labels, c)
    decreases c, 1
  {
    var s2 :| SpecCode(ctx, labels, c, KnownAll(ft.params), s2) && AllFit(s2, ft.results);
    LiveIsKnown(ctx, labels, c, KnownAll(ft.params), s2);
  }

  // What is permitted everywhere is guarded wherever a run gets to.
  lemma {:induction false} PermittedIsGuarded(ctx: Context, labels: LabelStack, g: Segment, c: Code)
    requires Permitted(ctx, labels, g, c)
    ensures LiveGuarded(ctx, labels, g, c)
    decreases c, 0
  {
    match c
    case Empty =>
    case Snoc(init, last) =>
      PermittedIsGuarded(ctx, labels, g, init);
      var m := CheckCode(ctx.env, labels, g, init);
      if m.Some? {
        PermittedInstrIsGuarded(ctx, labels, m.value, last);
      }
  }

  lemma {:induction false} PermittedInstrIsGuarded(ctx: Context, labels: LabelStack, g: Segment, i: Instr)
    requires PermittedInstr(ctx, labels, g, i)
    ensures LiveGuardedInstr(ctx, labels, g, i)
    decreases i, 0
  {
    match i
    case Plain(op) =>
    case Scope(kind, bt, body) =>
      if Expand(ctx.env, bt).Some? {
        var ft := Expand(ctx.env, bt).value;
        PermittedIsGuarded(ctx, labels + [LabelOf(kind, ft)], Holding(ft.params), body);
      }
    case IfElse(bt, thn, els) =>
      if Expand(ctx.env, bt).Some? {
        var ft := Expand(ctx.env, bt).value;
        PermittedIsGuarded(ctx, labels + [ft.results], Holding(ft.params), thn);
        PermittedIsGuarded(ctx, labels + [ft.results], Holding(ft.params), els);
      }
  }

  // A body that is valid by the specification keeps to its types on every run.
  lemma ValidRunsSafely(ctx: Context, c: Code)
    requires SpecBody(ctx, c)
    ensures Safe(ctx, c)
  {
    ValidIffPermitted(ctx, c);
    PermittedIsGuarded(ctx, [ctx.env.results], START, c);
    AcceptedRunsSafely(ctx, c);
  }
}
