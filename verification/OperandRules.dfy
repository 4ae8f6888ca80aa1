/**
 Operand types and segments: the operands a segment stands for when bottom is allowed among them, and
 for every instruction the exact difference between the library's check and the specification's rule.
 */
module OperandRules {
  import opened Ints
  import opened Syntax
  import opened Typing
  import opened Machine
  import opened Contexts
  import opened Specification

  // The operands a segment stands for: an unknown slot is any operand type, and a polymorphic segment
  // may rest on more.
  predicate Covers(g: Segment, s: Operands) {
    && |g.slots| <= |s| && (!g.poly ==> |s| == |g.slots|)
    && forall k | 0 <= k < |g.slots| :: g.slots[k] == Unknown || g.slots[k] == s[|s| - |g.slots| + k]
  }

  // The most general ones: bottom wherever a type is not known.
  function Pad(n: nat, g: Segment): (s: Operands)
    ensures |s| == n + |g.slots|
    ensures forall k | 0 <= k < n :: s[k] == Unknown
    ensures forall k | n <= k < |s| :: s[k] == g.slots[k - n]
  {
    seq(n, _ => Unknown) + g.slots
  }

  // The slots on top fit ts; what is below the bottom of a polymorphic segment fits anything.
  predicate SlotsFit(g: Segment, ts: seq<ValType>) {
    && (|ts| <= |g.slots| || g.poly)
    && forall k | 0 <= k < |ts| && k < |g.slots| :: Fits(SlotAt(g, k), ts[|ts| - 1 - k])
  }

  function Rest(g: Segment, n: nat): Segment {
    g.(slots := g.slots[..if n <= |g.slots| then |g.slots| - n else 0])
  }

  lemma SlotsFitSnoc(g: Segment, ts: seq<ValType>, t: ValType)
    ensures SlotsFit(g, ts + [t]) <==> (g.slots != [] || g.poly) && Fits(SlotAt(g, 0), t) && SlotsFit(Rest(g, 1), ts)
  {
    var more, n := ts + [t], |ts|;
    assert forall k | 0 <= k < n :: SlotAt(Rest(g, 1), k) == SlotAt(g, k + 1) && more[n - (k + 1)] == ts[n - 1 - k];
    if SlotsFit(g, more) {
      assert g.slots != [] ==> Fits(SlotAt(g, 0), more[n]);
      forall k | 0 <= k < n && k < |Rest(g, 1).slots|
        ensures Fits(SlotAt(Rest(g, 1), k), ts[n - 1 - k])
      {
        assert Fits(SlotAt(g, k + 1), more[n - (k + 1)]);
      }
    } else if Fits(SlotAt(g, 0), t) && SlotsFit(Rest(g, 1), ts) && (g.slots != [] || g.poly) {
      forall k | 0 <= k < |more| && k < |g.slots|
        ensures Fits(SlotAt(g, k), more[n - k])
      {
        if k > 0 {
          assert Fits(SlotAt(Rest(g, 1), k - 1), ts[n - 1 - (k - 1)]);
        }
      }
    }
  }

  lemma {:induction false} PopListAt(g: Segment, ts: seq<ValType>)
    ensures PopList(g, ts).Some? <==> SlotsFit(g, ts)
    ensures PopList(g, ts).Some? ==> PopList(g, ts).value == Rest(g, |ts|)
    decreases |ts|
  {
    if ts == [] {
      assert g.slots[..|g.slots|] == g.slots;
    } else {
      var n := |ts| - 1;
      assert ts == ts[..n] + [ts[n]];
      SlotsFitSnoc(g, ts[..n], ts[n]);
      PopListAt(Rest(g, 1), ts[..n]);
      assert PopAny(g).Some? ==> PopAny(g).value == (SlotAt(g, 0), Rest(g, 1));
    }
  }

  /* The specification's rules in terms of the library's effects. */

  ghost predicate SpecEffect(eff: Effect, s1: Operands, s2: Operands) {
    match eff
    case Arrow(pops, pushes) => SpecArrow(s1, pops, s2, pushes)
    case Stop(pops) => TopFits(s1, pops)
    case DropOne => s1 != [] && s2 == s1[..|s1| - 1]
    case _ => false
  }

  // The effect, and what the library does not look at.
  ghost predicate EffectHolds(ctx: Context, labels: LabelStack, op: Op, s1: Operands, s2: Operands) {
    && SpecEffect(EffectOf(ctx.env, labels, op), s1, s2)
    && (op.Fixed? ==> RowOk(ctx, op.row, op.imm)) && (op.RefFunc? ==> op.func in ctx.refs)
    && (op.CallIndirect? ==> op.table < |ctx.env.tables| && ctx.env.tables[op.table] == FuncRef)
  }

  lemma UnderIs(s1: Operands, pops: seq<ValType>, s2: Operands, pushes: seq<ValType>)
    ensures SpecUnder(s1, pops, s2, pushes) <==> SpecArrow(s1, pops + [I32], s2, pushes)
  {
    TopFitsSnoc(s1, pops, I32);
    if |pops| < |s1| {
      assert s1[..|s1| - 1][..|s1| - 1 - |pops|] == s1[..|s1| - |pops| - 1];
    }
  }

  lemma PushIs(s1: Operands, s2: Operands, t: ValType)
    ensures s2 == s1 + [Known(t)] <==> SpecArrow(s1, [], s2, [t])
  {
    assert KnownAll([t]) == [Known(t)] && s1[..|s1|] == s1;
  }

  lemma RowIs(ctx: Context, row: Row, imm: Imm)
    ensures RowEffect(ctx.env, row, imm) ==
            if OneMemory(ctx, imm) then Arrow(RowOperands(ctx, row, imm), row.pushes) else Reject
  {
    if row.pops != [] {
      assert row.pops[0 := ctx.env.addr] == [ctx.env.addr] + row.pops[1..];
    }
  }

  lemma TableOpIs(ctx: Context, labels: LabelStack, op: Op, s1: Operands, s2: Operands)
    requires OnTable(op)
    ensures SpecOp(ctx, labels, op, s1, s2) <==> EffectHolds(ctx, labels, op, s1, s2)
  {
    PushIs(s1, s2, I32);
  }

  lemma VariableIs(ctx: Context, labels: LabelStack, op: Op, s1: Operands, s2: Operands)
    requires OnVariable(op)
    ensures SpecOp(ctx, labels, op, s1, s2) <==> EffectHolds(ctx, labels, op, s1, s2)
  {
    if op.LocalGet? && op.local < |ctx.env.locals| {
      PushIs(s1, s2, ctx.env.locals[op.local]);
    } else if op.GlobalGet? && op.global < |ctx.env.globals| {
      PushIs(s1, s2, ctx.env.globals[op.global].t);
    }
  }

  lemma ReferenceIs(ctx: Context, labels: LabelStack, op: Op, s1: Operands, s2: Operands)
    requires op.RefNull? || op.RefFunc?
    ensures SpecOp(ctx, labels, op, s1, s2) <==> EffectHolds(ctx, labels, op, s1, s2)
  {
    PushIs(s1, s2, if op.RefNull? then op.ref else FuncRef);
  }

  lemma CallIs(ctx: Context, labels: LabelStack, op: Op, s1: Operands, s2: Operands)
    requires op.Call? || op.CallIndirect?
    ensures SpecOp(ctx, labels, op, s1, s2) <==> EffectHolds(ctx, labels, op, s1, s2)
  {
    var env := ctx.env;
    if op.CallIndirect? && op.sig < |env.types| {
      UnderIs(s1, env.types[op.sig].params, s2, env.types[op.sig].results);
    } else if op.Call? && op.func < |env.funcs| && env.funcs[op.func] < |env.types| {
      assert env.types[env.funcs[op.func]].params + [] == env.types[env.funcs[op.func]].params;
    }
  }

  lemma FlowIs(ctx: Context, labels: LabelStack, op: Op, s1: Operands, s2: Operands)
    requires op.Br? || op.BrIf? || op.Return? || op.Unreachable? || op.Drop? || op.SelectT?
    ensures SpecOp(ctx, labels, op, s1, s2) <==> EffectHolds(ctx, labels, op, s1, s2)
  {
    if op.BrIf? && op.rel < |labels| {
      UnderIs(s1, LabelAt(labels, op.rel), s2, LabelAt(labels, op.rel));
    } else if op.Unreachable? {
      assert TopFits(s1, []);
    }
  }

  // Every instruction's rule but those of untyped select, ref.is_null and br_table is its effect's.
  lemma SpecOpIs(ctx: Context, labels: LabelStack, op: Op, s1: Operands, s2: Operands)
    requires !op.Select? && !op.RefIsNull? && !op.BrTable?
    ensures SpecOp(ctx, labels, op, s1, s2) <==> EffectHolds(ctx, labels, op, s1, s2)
  {
    if op.Fixed? {
      RowIs(ctx, op.row, op.imm);
    } else if op.Call? || op.CallIndirect? {
      CallIs(ctx, labels, op, s1, s2);
    } else if op.Br? || op.BrIf? || op.Return? || op.Unreachable? || op.Drop? || op.SelectT? {
      FlowIs(ctx, labels, op, s1, s2);
    } else if OnTable(op) {
      TableOpIs(ctx, labels, op, s1, s2);
    } else if OnVariable(op) {
      VariableIs(ctx, labels, op, s1, s2);
    } else {
      ReferenceIs(ctx, labels, op, s1, s2);
    }
  }

  lemma BlockIs(kind: FrameKind, ft: FuncType, s1: Operands, s2: Operands)
    ensures SpecBlock(kind, ft, s1, s2) <==> SpecArrow(s1, Entry(kind, ft), s2, ft.results)
  {
    UnderIs(s1, ft.params, s2, ft.results);
  }

  // The rules of blocks in terms of what the library pops and of the label it gives them.
  lemma ScopeIs(
    ctx: Context, labels: LabelStack, kind: FrameKind, bt: BlockType, body: Code, s1: Operands, s2: Operands)
    ensures SpecInstr(ctx, labels, Scope(kind, bt, body), s1, s2) <==>
            && Expand(ctx.env, bt).Some?
            && var ft := Expand(ctx.env, bt).value;
               && SpecArrow(s1, Entry(kind, ft), s2, ft.results) && (kind == KIf ==> ft.params == ft.results)
               && SpecArm(ctx, labels + [LabelOf(kind, ft)], body, ft.params, ft.results)
  {
    if Expand(ctx.env, bt).Some? {
      BlockIs(kind, Expand(ctx.env, bt).value, s1, s2);
    }
  }

  lemma IfElseIs(
    ctx: Context, labels: LabelStack, bt: BlockType, thn: Code, els: Code, s1: Operands, s2: Operands)
    ensures SpecInstr(ctx, labels, IfElse(bt, thn, els), s1, s2) <==>
            && Expand(ctx.env, bt).Some?
            && var ft := Expand(ctx.env, bt).value;
               && SpecArrow(s1, Entry(KIf, ft), s2, ft.results)
               && SpecArm(ctx, labels + [ft.results], thn, ft.params, ft.results)
               && SpecArm(ctx, labels + [ft.results], els, ft.params, ft.results)
  {
    if Expand(ctx.env, bt).Some? {
      BlockIs(KIf, Expand(ctx.env, bt).value, s1, s2);
    }
  }

  /* One instruction: a valid step is accepted and permitted. */

  lemma CoverFits(g: Segment, s: Operands, ts: seq<ValType>)
    requires Covers(g, s) && TopFits(s, ts)
    ensures SlotsFit(g, ts) && Covers(Rest(g, |ts|), s[..|s| - |ts|])
  {
    var top := s[|s| - |ts|..];
    forall k | 0 <= k < |ts| && k < |g.slots|
      ensures Fits(SlotAt(g, k), ts[|ts| - 1 - k])
    {
      assert top[|ts| - 1 - k] == s[|s| - 1 - k];
      assert g.slots[|g.slots| - 1 - k] == Unknown || g.slots[|g.slots| - 1 - k] == s[|s| - 1 - k];
    }
  }

  lemma CoverPush(g: Segment, s: Operands, ts: seq<ValType>)
    requires Covers(g, s)
    ensures Covers(PushList(g, ts), s + KnownAll(ts))
  {}

  lemma ArrowComplete(g: Segment, s1: Operands, pops: seq<ValType>, s2: Operands, pushes: seq<ValType>)
    requires Covers(g, s1) && SpecArrow(s1, pops, s2, pushes)
    ensures PopList(g, pops).Some? && Covers(PushList(PopList(g, pops).value, pushes), s2)
  {
    CoverFits(g, s1, pops);
    PopListAt(g, pops);
    CoverPush(Rest(g, |pops|), s1[..|s1| - |pops|], pushes);
  }

  lemma TopFitsSnoc(s: Operands, ts: seq<ValType>, t: ValType)
    ensures TopFits(s, ts + [t]) <==> s != [] && Fits(s[|s| - 1], t) && TopFits(s[..|s| - 1], ts)
  {
    if |ts| + 1 <= |s| {
      var init, n := s[..|s| - 1], |s| - |ts| - 1;
      assert s[n..] == init[n..] + [s[|s| - 1]];
      assert TopFits(s, ts + [t]) ==> Fits(s[n..][|ts|], t);
      forall k | 0 <= k < |ts|
        ensures init[n..][k] == s[n..][k] && (ts + [t])[k] == ts[k]
      {}
    }
  }

  lemma TableComplete(labels: LabelStack, g: Segment, ls: seq<u32>, d: u32, s1: Operands)
    requires Covers(g, s1) && SpecTable(labels, ls, d, s1)
    ensures PopList(g, LabelAt(labels, d) + [I32]).Some?
    ensures forall k | 0 <= k < |ls| :: PopList(g, LabelAt(labels, ls[k]) + [I32]).Some?
  {
    TopFitsSnoc(s1, LabelAt(labels, d), I32);
    CoverFits(g, s1, LabelAt(labels, d) + [I32]);
    PopListAt(g, LabelAt(labels, d) + [I32]);
    forall k | 0 <= k < |ls|
      ensures PopList(g, LabelAt(labels, ls[k]) + [I32]).Some?
    {
      TopFitsSnoc(s1, LabelAt(labels, ls[k]), I32);
      CoverFits(g, s1, LabelAt(labels, ls[k]) + [I32]);
      PopListAt(g, LabelAt(labels, ls[k]) + [I32]);
    }
  }

  lemma PopAt(g: Segment)
    ensures PopAny(g).Some? <==> g.slots != [] || g.poly
    ensures PopAny(g).Some? ==> PopAny(g).value == (SlotAt(g, 0), Rest(g, 1))
  {}

  lemma RestAt(g: Segment, j: nat, k: nat)
    ensures SlotAt(Rest(g, j), k) == SlotAt(g, j + k) && Rest(Rest(g, j), k) == Rest(g, j + k)
  {}

  // What the library's select does, slot by slot.
  lemma SelectAt(g: Segment)
    ensures SelectSlots(g).Some? <==>
            && (|g.slots| >= 3 || g.poly) && Fits(SlotAt(g, 0), I32) && Compatible(SlotAt(g, 2), SlotAt(g, 1))
    ensures SelectSlots(g).Some? ==>
              SelectSlots(g).value == Push(Rest(g, 3), if SlotAt(g, 2) == Unknown then SlotAt(g, 1) else SlotAt(g, 2))
  {
    PopAt(g);
    PopAt(Rest(g, 1));
    PopAt(Rest(g, 2));
    RestAt(g, 1, 0);
    RestAt(g, 1, 1);
    RestAt(g, 2, 0);
    RestAt(g, 2, 1);
  }

  lemma CoverAt(g: Segment, s: Operands, k: nat)
    requires Covers(g, s) && k < |s|
    ensures SlotAt(g, k) == Unknown || SlotAt(g, k) == s[|s| - 1 - k]
  {
    if k < |g.slots| {
      var j := |g.slots| - 1 - k;
      assert g.slots[j] == Unknown || g.slots[j] == s[|s| - |g.slots| + j];
    }
  }

  lemma CoverRest(g: Segment, s: Operands, n: nat)
    requires Covers(g, s) && n <= |s|
    ensures Covers(Rest(g, n), s[..|s| - n])
  {}

  lemma CoverPushOne(g: Segment, x: Slot, s: Operands, y: Slot)
    requires Covers(g, s) && (x == Unknown || x == y)
    ensures Covers(Push(g, x), s + [y])
  {}

  lemma SelectComplete(g: Segment, s1: Operands, s2: Operands)
    requires Covers(g, s1) && SpecSelect(s1, s2)
    ensures SelectSlots(g).Some? && Covers(SelectSlots(g).value, s2)
    ensures Number(SlotAt(g, 1)) && Number(SlotAt(g, 2))
  {
    SelectAt(g);
    CoverAt(g, s1, 0);
    CoverAt(g, s1, 1);
    CoverAt(g, s1, 2);
    CoverRest(g, s1, 3);
    var rest, t := s1[..|s1| - 3], s2[|s1| - 3];
    CoverPushOne(Rest(g, 3), if SlotAt(g, 2) == Unknown then SlotAt(g, 1) else SlotAt(g, 2), rest, t);
    assert s2 == rest + [t];
  }

  lemma PopComplete(g: Segment, s: Operands)
    requires Covers(g, s) && s != []
    ensures PopAny(g) == Some((SlotAt(g, 0), Rest(g, 1))) && Covers(Rest(g, 1), s[..|s| - 1])
    ensures SlotAt(g, 0) == Unknown || SlotAt(g, 0) == s[|s| - 1]
  {
    PopAt(g);
    CoverAt(g, s, 0);
    CoverRest(g, s, 1);
  }

  lemma OpPermitted(ctx: Context, labels: LabelStack, g: Segment, op: Op, s1: Operands, s2: Operands)
    requires Covers(g, s1) && SpecOp(ctx, labels, op, s1, s2)
    ensures Permits(ctx, labels, g, op)
  {
    if op.Select? {
      SelectComplete(g, s1, s2);
    } else if op.BrTable? {
      TableComplete(labels, g, op.targets, op.default, s1);
    } else if op.RefIsNull? {
      PopComplete(g, s1);
    } else {
      SpecOpIs(ctx, labels, op, s1, s2);
    }
  }

  lemma OpCovered(ctx: Context, labels: LabelStack, g: Segment, op: Op, s1: Operands, s2: Operands)
    requires Covers(g, s1) && SpecOp(ctx, labels, op, s1, s2)
    ensures var r := ApplyEffect(g, EffectOf(ctx.env, labels, op)); r.Some? && Covers(r.value, s2)
  {
    if op.Select? {
      SelectComplete(g, s1, s2);
    } else if op.BrTable? {
      TableComplete(labels, g, op.targets, op.default, s1);
    } else if op.Drop? {
      PopComplete(g, s1);
    } else if op.RefIsNull? {
      PopComplete(g, s1);
      CoverPushOne(Rest(g, 1), Known(I32), s1[..|s1| - 1], Known(I32));
    } else {
      SpecOpIs(ctx, labels, op, s1, s2);
      EffectComplete(g, EffectOf(ctx.env, labels, op), s1, s2);
    }
  }

  lemma OpComplete(ctx: Context, labels: LabelStack, g: Segment, op: Op, s1: Operands, s2: Operands)
    requires Covers(g, s1) && SpecOp(ctx, labels, op, s1, s2)
    ensures Permits(ctx, labels, g, op)
    ensures var r := ApplyEffect(g, EffectOf(ctx.env, labels, op)); r.Some? && Covers(r.value, s2)
  {
    OpPermitted(ctx, labels, g, op, s1, s2);
    OpCovered(ctx, labels, g, op, s1, s2);
  }

  lemma EffectComplete(g: Segment, eff: Effect, s1: Operands, s2: Operands)
    requires Covers(g, s1) && SpecEffect(eff, s1, s2) && !eff.DropOne?
    ensures ApplyEffect(g, eff).Some? && Covers(ApplyEffect(g, eff).value, s2)
  {
    match eff
    case Arrow(pops, pushes) => ArrowComplete(g, s1, pops, s2, pushes);
    case Stop(pops) =>
      CoverFits(g, s1, pops);
      PopListAt(g, pops);
  }

  /* One instruction: an accepted and permitted step is valid for the most general operands. */

  // How many operands below the bottom popping n takes.
  function Missing(g: Segment, n: nat): nat {
    if n <= |g.slots| then 0 else n - |g.slots|
  }

  lemma PadAt(m: nat, g: Segment, k: nat)
    requires k < m + |g.slots|
    ensures Pad(m, g)[m + |g.slots| - 1 - k] == SlotAt(g, k)
  {}

  lemma PadFits(g: Segment, ts: seq<ValType>, m: nat)
    requires SlotsFit(g, ts) && |ts| <= m + |g.slots|
    ensures TopFits(Pad(m, g), ts)
  {
    var n := m + |g.slots|;
    var top := Pad(m, g)[n - |ts|..];
    forall k | 0 <= k < |ts|
      ensures Fits(top[k], ts[k])
    {
      var j := |ts| - 1 - k;
      PadAt(m, g, j);
      assert top[k] == Pad(m, g)[n - 1 - j] && ts[|ts| - 1 - j] == ts[k];
    }
  }

  lemma PadRest(g: Segment, n: nat, m: nat)
    ensures Pad(m + Missing(g, n), g)[..m + Missing(g, n) + |g.slots| - n] == Pad(m, Rest(g, n))
  {}

  lemma PadPush(g: Segment, m: nat, ts: seq<ValType>)
    ensures Pad(m, PushList(g, ts)) == Pad(m, g) + KnownAll(ts)
  {}

  lemma ArrowSound(g: Segment, pops: seq<ValType>, pushes: seq<ValType>, n: nat) returns (m: nat)
    requires PopList(g, pops).Some? && (n > 0 ==> g.poly)
    ensures SpecArrow(Pad(m, g), pops, Pad(n, PushList(PopList(g, pops).value, pushes)), pushes) && (m > 0 ==> g.poly)
  {
    PopListAt(g, pops);
    m := n + Missing(g, |pops|);
    PadFits(g, pops, m);
    ArrowPads(g, pops, pushes, n);
  }

  lemma ArrowPads(g: Segment, pops: seq<ValType>, pushes: seq<ValType>, n: nat)
    ensures var m := n + Missing(g, |pops|);
      Pad(n, PushList(Rest(g, |pops|), pushes)) == Pad(m, g)[..|Pad(m, g)| - |pops|] + KnownAll(pushes)
  {
    PadRest(g, |pops|, n);
    PadPush(Rest(g, |pops|), n, pushes);
  }

  lemma StopSound(g: Segment, pops: seq<ValType>) returns (m: nat)
    requires PopList(g, pops).Some?
    ensures TopFits(Pad(m, g), pops) && (m > 0 ==> g.poly)
  {
    PopListAt(g, pops);
    m := Missing(g, |pops|);
    PadFits(g, pops, m);
  }

  lemma TableSound(labels: LabelStack, g: Segment, ls: seq<u32>, d: u32) returns (m: nat)
    requires TargetsOk(labels, ls, d) && PopList(g, LabelAt(labels, d) + [I32]).Some?
    requires forall k | 0 <= k < |ls| :: PopList(g, LabelAt(labels, ls[k]) + [I32]).Some?
    ensures SpecTable(labels, ls, d, Pad(m, g)) && (m > 0 ==> g.poly)
  {
    m := StopSound(g, LabelAt(labels, d) + [I32]);
    TopFitsSnoc(Pad(m, g), LabelAt(labels, d), I32);
    forall k | 0 <= k < |ls|
      ensures TopFits(Pad(m, g)[..m + |g.slots| - 1], LabelAt(labels, ls[k]))
    {
      PopListAt(g, LabelAt(labels, ls[k]) + [I32]);
      PadFits(g, LabelAt(labels, ls[k]) + [I32], m);
      TopFitsSnoc(Pad(m, g), LabelAt(labels, ls[k]), I32);
    }
  }

  lemma SelectSound(g: Segment, n: nat) returns (m: nat)
    requires SelectSlots(g).Some? && Number(SlotAt(g, 1)) && Number(SlotAt(g, 2)) && (n > 0 ==> g.poly)
    ensures SpecSelect(Pad(m, g), Pad(n, SelectSlots(g).value)) && (m > 0 ==> g.poly)
  {
    SelectAt(g);
    m := n + Missing(g, 3);
    var t := if SlotAt(g, 2) == Unknown then SlotAt(g, 1) else SlotAt(g, 2);
    SelectPads(g, n, t, Pad(m, g), Pad(n, Push(Rest(g, 3), t)));
  }

  lemma SelectPads(g: Segment, n: nat, t: Slot, s1: Operands, s2: Operands)
    requires Number(t) && Fits(SlotAt(g, 0), I32)
    requires (SlotAt(g, 1) == Unknown || SlotAt(g, 1) == t) && (SlotAt(g, 2) == Unknown || SlotAt(g, 2) == t)
    requires s1 == Pad(n + Missing(g, 3), g) && s2 == Pad(n, Push(Rest(g, 3), t))
    ensures SpecSelect(s1, s2)
  {
    assert |s1| >= 3;
    assert s1[|s1| - 1] == SlotAt(g, 0) && s1[|s1| - 2] == SlotAt(g, 1) && s1[|s1| - 3] == SlotAt(g, 2) by {
      PadAt(n + Missing(g, 3), g, 0);
      PadAt(n + Missing(g, 3), g, 1);
      PadAt(n + Missing(g, 3), g, 2);
    }
    var rest := Pad(n, Rest(g, 3));
    assert rest == s1[..|s1| - 3] by {
      PadRest(g, 3, n);
    }
    assert s2 == rest + [t] by {
      PadPushOne(Rest(g, 3), n, t);
    }
    SelectMakes(s1, rest, t, s2);
  }

  lemma SelectMakes(s1: Operands, rest: Operands, t: Slot, s2: Operands)
    requires s2 == rest + [t]
    requires |s1| >= 3 && rest == s1[..|s1| - 3] && Number(t) && Fits(s1[|s1| - 1], I32)
    requires s1[|s1| - 2] == Unknown || s1[|s1| - 2] == t
    requires s1[|s1| - 3] == Unknown || s1[|s1| - 3] == t
    ensures SpecSelect(s1, s2)
  {}

  lemma PadPushOne(g: Segment, m: nat, x: Slot)
    ensures Pad(m, Push(g, x)) == Pad(m, g) + [x]
  {}

  lemma PopSound(g: Segment, n: nat) returns (m: nat)
    requires PopAny(g).Some? && (n > 0 ==> g.poly)
    ensures Pad(m, g) != [] && PopAny(g).value == (SlotAt(g, 0), Rest(g, 1)) && (m > 0 ==> g.poly)
    ensures Pad(m, g)[|Pad(m, g)| - 1] == SlotAt(g, 0) && Pad(m, g)[..|Pad(m, g)| - 1] == Pad(n, Rest(g, 1))
  {
    m := n + Missing(g, 1);
    PadRest(g, 1, n);
  }

  // Operands that the library's step from g to g', which fits n more below, is valid on.
  ghost predicate Sound(ctx: Context, labels: LabelStack, g: Segment, op: Op, n: nat, m: nat) {
    && ApplyEffect(g, EffectOf(ctx.env, labels, op)).Some? && (m > 0 ==> g.poly)
    && SpecOp(ctx, labels, op, Pad(m, g), Pad(n, ApplyEffect(g, EffectOf(ctx.env, labels, op)).value))
  }

  lemma OpSound(ctx: Context, labels: LabelStack, g: Segment, op: Op, n: nat) returns (m: nat)
    requires ApplyEffect(g, EffectOf(ctx.env, labels, op)).Some? && Permits(ctx, labels, g, op)
    requires n > 0 ==> ApplyEffect(g, EffectOf(ctx.env, labels, op)).value.poly
    ensures Sound(ctx, labels, g, op, n, m)
  {
    if op.Select? {
      m := SelectSound(g, n);
    } else if op.BrTable? {
      m := TableSound(labels, g, op.targets, op.default);
    } else if op.Drop? || op.RefIsNull? {
      m := TopSound(ctx, labels, g, op, n);
    } else {
      m := SimpleSound(ctx, labels, g, op, n);
    }
  }

  lemma TopSound(ctx: Context, labels: LabelStack, g: Segment, op: Op, n: nat) returns (m: nat)
    requires op.Drop? || op.RefIsNull?
    requires ApplyEffect(g, EffectOf(ctx.env, labels, op)).Some? && Permits(ctx, labels, g, op)
    requires n > 0 ==> ApplyEffect(g, EffectOf(ctx.env, labels, op)).value.poly
    ensures Sound(ctx, labels, g, op, n, m)
  {
    m := PopSound(g, n);
    PadPush(Rest(g, 1), n, [I32]);
    assert KnownAll([I32]) == [Known(I32)];
  }

  lemma SimpleSound(ctx: Context, labels: LabelStack, g: Segment, op: Op, n: nat) returns (m: nat)
    requires !op.Select? && !op.RefIsNull? && !op.BrTable? && !op.Drop?
    requires ApplyEffect(g, EffectOf(ctx.env, labels, op)).Some? && Permits(ctx, labels, g, op)
    requires n > 0 ==> ApplyEffect(g, EffectOf(ctx.env, labels, op)).value.poly
    ensures Sound(ctx, labels, g, op, n, m)
  {
    m := EffectSound(g, EffectOf(ctx.env, labels, op), n);
    SpecOpIs(ctx, labels, op, Pad(m, g), Pad(n, ApplyEffect(g, EffectOf(ctx.env, labels, op)).value));
  }

  lemma EffectSound(g: Segment, eff: Effect, n: nat) returns (m: nat)
    requires (eff.Arrow? || eff.Stop?) && ApplyEffect(g, eff).Some? && (n > 0 ==> ApplyEffect(g, eff).value.poly)
    ensures SpecEffect(eff, Pad(m, g), Pad(n, ApplyEffect(g, eff).value)) && (m > 0 ==> g.poly)
  {
    match eff
    case Arrow(pops, pushes) =>
      PopListAt(g, pops);
      m := ArrowSound(g, pops, pushes, n);
    case Stop(pops) => m := StopSound(g, pops);
  }

  /* One instruction, both ways. */

  // Some represented operands take a valid step exactly when the library's step succeeds and is permitted.
  lemma OpConforms(ctx: Context, labels: LabelStack, g: Segment, op: Op)
    ensures (exists s1, s2 :: Covers(g, s1) && SpecOp(ctx, labels, op, s1, s2))
            <==> ApplyEffect(g, EffectOf(ctx.env, labels, op)).Some? && Permits(ctx, labels, g, op)
  {
    forall s1, s2 | Covers(g, s1) && SpecOp(ctx, labels, op, s1, s2)
      ensures ApplyEffect(g, EffectOf(ctx.env, labels, op)).Some? && Permits(ctx, labels, g, op)
    {
      OpComplete(ctx, labels, g, op, s1, s2);
    }
    if ApplyEffect(g, EffectOf(ctx.env, labels, op)).Some? && Permits(ctx, labels, g, op) {
      var m := OpSound(ctx, labels, g, op, 0);
      assert Covers(g, Pad(m, g));
    }
  }
}
