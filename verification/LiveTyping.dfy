/**
 The library's check of code that control can get to. Typed code passes it, and where control falls
 through the check has exactly the operands that are on the stack.
 */
module LiveTyping {
  import opened Ints
  import opened Syntax
  import opened Typing
  import opened Machine
  import opened Exactness
  import opened Soundness
  import opened TreeCheck
  import opened Contexts
  import opened Liveness

  /* Typed code passes. */

  lemma {:induction false} CheckComplete(
    env: Env, labels: LabelStack, g: Segment, c: Code, s1: seq<ValType>, s2: seq<ValType>)
    requires Rep(g, s1) && TypedCode(false, env, labels, c, s1, s2)
    ensures CheckCode(env, labels, g, c).Some? && Rep(CheckCode(env, labels, g, c).value, s2)
    decreases c, 0
  {
    match c
    case Empty =>
    case Snoc(init, last) =>
      var m :| TypedCode(false, env, labels, init, s1, m) && TypedInstr(false, env, labels, last, m, s2);
      CheckComplete(env, labels, g, init, s1, m);
      CheckCompleteInstr(env, labels, CheckCode(env, labels, g, init).value, last, m, s2);
  }

  lemma {:induction false} CheckCompleteInstr(
    env: Env, labels: LabelStack, g: Segment, i: Instr, s1: seq<ValType>, s2: seq<ValType>)
    requires Rep(g, s1) && TypedInstr(false, env, labels, i, s1, s2)
    ensures CheckInstr(env, labels, g, i).Some? && Rep(CheckInstr(env, labels, g, i).value, s2)
    decreases i, 0
  {
    match i
    case Plain(op) => EffectComplete(g, EffectOf(env, labels, op), s1, s2);
    case Scope(kind, bt, body) =>
      var ft := Expand(env, bt).value;
      RewriteComplete(g, Entry(kind, ft), ft.results, s1, s2);
      ArmChecks(env, labels + [LabelOf(kind, ft)], body, ft);
    case IfElse(bt, thn, els) =>
      var ft := Expand(env, bt).value;
      RewriteComplete(g, Entry(KIf, ft), ft.results, s1, s2);
      ArmChecks(env, labels + [ft.results], thn, ft);
      ArmChecks(env, labels + [ft.results], els, ft);
  }

  lemma {:induction false} ArmChecks(env: Env, labels: LabelStack, c: Code, ft: FuncType)
    requires TypedCode(false, env, labels, c, ft.params, ft.results)
    ensures CheckArm(env, labels, c, ft)
    decreases c, 1
  {
    OpenRep(ft.params, ft.params);
    CheckComplete(env, labels, Holding(ft.params), c, ft.params, ft.results);
    RepCloses(CheckCode(env, labels, Holding(ft.params), c).value, ft.results);
  }

  lemma RepCloses(g: Segment, results: seq<ValType>)
    requires Rep(g, results)
    ensures ClosesWith(g, results)
  {
    assert [] + results == results;
    PopListRep(g, results, []);
  }

  /* Where control falls through. */

  lemma TopHolds(s: seq<ValType>, t: ValType)
    ensures PopAny(Holding(s + [t])) == Some((Known(t), Holding(s)))
  {
    assert KnownAll(s + [t])[..|s|] == KnownAll(s);
  }

  lemma PopSnoc(init: seq<ValType>, x: ValType, ts: seq<ValType>)
    requires ts != []
    ensures PopList(Holding(init + [x]), ts)
            == if x == ts[|ts| - 1] then PopList(Holding(init), ts[..|ts| - 1]) else None
  {
    TopHolds(init, x);
  }

  lemma {:induction false} PopHolding(s: seq<ValType>, ts: seq<ValType>)
    ensures PopList(Holding(s), ts) == if Ends(s, ts) then Some(Holding(Below(s, ts))) else None
    decreases |ts|
  {
    if ts == [] {
      assert s[..|s|] == s;
    } else if s == [] {
      assert PopAny(Holding(s)) == None;
    } else {
      var init, x := s[..|s| - 1], s[|s| - 1];
      assert s == init + [x];
      PopSnoc(init, x, ts);
      EndsSnoc(init, x, ts);
      PopHolding(init, ts[..|ts| - 1]);
    }
  }

  lemma PushHolding(s: seq<ValType>, ts: seq<ValType>)
    ensures PushList(Holding(s), ts) == Holding(s + ts)
  {
    assert KnownAll(s) + KnownAll(ts) == KnownAll(s + ts);
  }

  lemma RewriteHolds(s1: seq<ValType>, pops: seq<ValType>, s2: seq<ValType>, pushes: seq<ValType>)
    requires Rewrites(s1, pops, s2, pushes)
    ensures PopList(Holding(s1), pops).Some? && PushList(PopList(Holding(s1), pops).value, pushes) == Holding(s2)
  {
    PopHolding(s1, pops);
    PushHolding(Below(s1, pops), pushes);
  }

  lemma AnyHolds(s1: seq<ValType>, t: ValType, s2: seq<ValType>, pushes: seq<ValType>)
    requires Rewrites(s1, [t], s2, pushes)
    ensures PopAny(Holding(s1)) == Some((Known(t), Holding(Below(s1, [t]))))
    ensures PushList(Holding(Below(s1, [t])), pushes) == Holding(s2)
  {
    var rest := Below(s1, [t]);
    assert s1 == rest + [t] && KnownAll(s1)[..|s1| - 1] == KnownAll(rest);
    PushHolding(rest, pushes);
  }

  lemma SelectHolds(s1: seq<ValType>, t: ValType, s2: seq<ValType>)
    requires Rewrites(s1, [t, t, I32], s2, [t])
    ensures SelectSlots(Holding(s1)) == Some(Holding(s2))
  {
    var rest := Below(s1, [t, t, I32]);
    var one := rest + [t];
    var two := one + [t];
    assert s1 == two + [I32];
    TopHolds(two, I32);
    TopHolds(one, t);
    TopHolds(rest, t);
    assert KnownAll(rest) + [Known(t)] == KnownAll(s2);
  }

  lemma EffectHolds(eff: Effect, s1: seq<ValType>, s2: seq<ValType>)
    requires TypedEffect(eff, s1, s2) && !eff.Stop?
    ensures ApplyEffect(Holding(s1), eff) == Some(Holding(s2))
  {
    match eff
    case Arrow(pops, pushes) => RewriteHolds(s1, pops, s2, pushes);
    case DropOne =>
      var t: ValType :| Rewrites(s1, [t], s2, []);
      AnyHolds(s1, t, s2, []);
      assert KnownAll(Below(s1, [t])) + KnownAll([]) == KnownAll(Below(s1, [t]));
    case SelectOne =>
      var t: ValType :| Rewrites(s1, [t, t, I32], s2, [t]);
      SelectHolds(s1, t, s2);
    case TestOne =>
      var t: ValType :| Rewrites(s1, [t], s2, [I32]);
      AnyHolds(s1, t, s2, [I32]);
      assert KnownAll([I32]) == [Known(I32)];
  }

  // Typed code that control falls through leaves the check with the operands of its typing.
  lemma {:induction false} FallsHolding(env: Env, labels: LabelStack, c: Code, s1: seq<ValType>, s2: seq<ValType>)
    requires TypedCode(false, env, labels, c, s1, s2) && Falls(c)
    ensures CheckCode(env, labels, Holding(s1), c) == Some(Holding(s2))
    decreases c, 0
  {
    match c
    case Empty =>
    case Snoc(init, last) =>
      var m :| TypedCode(false, env, labels, init, s1, m) && TypedInstr(false, env, labels, last, m, s2);
      FallsHolding(env, labels, init, s1, m);
      FallsHoldingInstr(env, labels, last, m, s2);
  }

  lemma {:induction false} FallsHoldingInstr(
    env: Env, labels: LabelStack, i: Instr, s1: seq<ValType>, s2: seq<ValType>)
    requires TypedInstr(false, env, labels, i, s1, s2) && FallsInstr(i)
    ensures CheckInstr(env, labels, Holding(s1), i) == Some(Holding(s2))
    decreases i, 0
  {
    match i
    case Plain(op) => EffectHolds(EffectOf(env, labels, op), s1, s2);
    case Scope(kind, bt, body) =>
      var ft := Expand(env, bt).value;
      RewriteHolds(s1, Entry(kind, ft), s2, ft.results);
      ArmChecks(env, labels + [LabelOf(kind, ft)], body, ft);
    case IfElse(bt, thn, els) =>
      var ft := Expand(env, bt).value;
      RewriteHolds(s1, Entry(KIf, ft), s2, ft.results);
      ArmChecks(env, labels + [ft.results], thn, ft);
      ArmChecks(env, labels + [ft.results], els, ft);
  }

  // So the last instruction of guarded code, if it is reached, is guarded on the operands of its typing.
  lemma LastIsGuarded(
    ctx: Context, labels: LabelStack, init: Code, last: Instr, s1: seq<ValType>, m: seq<ValType>)
    requires TypedCode(false, ctx.env, labels, init, s1, m) && Falls(init)
    ensures LiveGuarded(ctx, labels, Holding(s1), Snoc(init, last))
            <==> LiveGuarded(ctx, labels, Holding(s1), init) && LiveGuardedInstr(ctx, labels, Holding(m), last)
  {
    FallsHolding(ctx.env, labels, init, s1, m);
  }
}
