/**
 The validator object: one flat operand stack and a stack of control records, each remembering the
 height of the operand stack when it was pushed. Every hook is proved to take the step of the
 segmented machine, and to fail exactly when that machine does.
 */
module Validation {
  import opened Ints
  import opened Syntax
  import opened Typing
  import opened Machine

  // The outcome of a hook. After Rejected the run is over and nothing is promised.
  datatype Checked<+T> = Rejected | Accepted(value: T) {
    predicate IsFailure() {
      Rejected?
    }

    function PropagateFailure<U>(): Checked<U>
      requires Rejected?
    {
      Rejected
    }

    function Extract(): T
      requires Accepted?
    {
      value
    }
  }

  datatype Ctrl = Ctrl(
    kind: Kind, unreachable: bool, elseSeen: bool, height: nat, ins: seq<ValType>, outs: seq<ValType>)

  // What the validator reads from the module.
  datatype Decls = Decls(
    types: seq<FuncType>, funcs: seq<nat>, globals: seq<GlobalType>, tables: seq<RefType>,
    addr: ValType, multiMemory: bool)
  {
    function In(locals: seq<ValType>, results: seq<ValType>): Env {
      Env(types, funcs, globals, tables, locals, results, addr, multiMemory)
    }
  }

  function FrameOf(c: Ctrl, slots: seq<Slot>): Frame {
    Frame(c.kind, c.elseSeen, FuncType(c.ins, c.outs), Segment(slots, c.unreachable))
  }

  // Where the operands of record k end.
  function Limit(vals: seq<Slot>, ctrls: seq<Ctrl>, k: nat): nat
    requires k < |ctrls|
  {
    if k + 1 < |ctrls| then ctrls[k + 1].height else |vals|
  }

  // Frame k has the operands between the height of record k and the next height.
  predicate ShowsAt(vals: seq<Slot>, ctrls: seq<Ctrl>, fs: seq<Frame>, k: nat)
    requires k < |ctrls| == |fs|
  {
    && ctrls[k].height <= Limit(vals, ctrls, k) <= |vals|
    && fs[k] == FrameOf(ctrls[k], vals[ctrls[k].height..Limit(vals, ctrls, k)])
  }

  // Cutting the flat stack at the heights gives exactly the frames.
  predicate Shows(vals: seq<Slot>, ctrls: seq<Ctrl>, fs: seq<Frame>) {
    && |ctrls| == |fs|
    && (if ctrls == [] then vals == [] else ctrls[0].height == 0)
    && forall k: nat | k < |ctrls| :: ShowsAt(vals, ctrls, fs, k)
  }

  // Heights never decrease towards the top and never exceed the stack.
  lemma {:induction false} HeightsMonotone(vals: seq<Slot>, ctrls: seq<Ctrl>, fs: seq<Frame>, i: nat, j: nat)
    requires Shows(vals, ctrls, fs) && i <= j < |ctrls|
    ensures ctrls[i].height <= ctrls[j].height <= |vals|
    decreases j - i
  {
    assert ShowsAt(vals, ctrls, fs, i);
    if i < j {
      HeightsMonotone(vals, ctrls, fs, i + 1, j);
    }
  }

  // Replacing what lies above the innermost height replaces the innermost frame only.
  lemma ChangeTop(vals: seq<Slot>, ctrls: seq<Ctrl>, outer: seq<Frame>, top: Frame, c: Ctrl, slots: seq<Slot>)
    requires Shows(vals, ctrls, outer + [top]) && c.height == ctrls[|outer|].height
    ensures c.height <= |vals| && top == FrameOf(ctrls[|outer|], vals[c.height..])
    ensures Shows(vals[..c.height] + slots, ctrls[..|outer|] + [c], outer + [FrameOf(c, slots)])
  {
    var n := |outer|;
    var vals', ctrls', fs' := vals[..c.height] + slots, ctrls[..n] + [c], outer + [FrameOf(c, slots)];
    assert ShowsAt(vals, ctrls, outer + [top], n);
    forall k: nat | k <= n
      ensures ShowsAt(vals', ctrls', fs', k)
    {
      assert ShowsAt(vals, ctrls, outer + [top], k);
      if k < n {
        HeightsMonotone(vals, ctrls, outer + [top], k + 1, n);
        assert vals'[ctrls[k].height..ctrls[k + 1].height] == vals[ctrls[k].height..ctrls[k + 1].height];
      } else {
        assert vals'[c.height..] == slots;
      }
    }
  }

  // A new record over the whole stack adds an empty frame.
  lemma AddFrame(vals: seq<Slot>, ctrls: seq<Ctrl>, fs: seq<Frame>, c: Ctrl)
    requires Shows(vals, ctrls, fs) && c.height == |vals|
    ensures Shows(vals, ctrls + [c], fs + [FrameOf(c, [])])
  {
    forall k: nat | k <= |ctrls|
      ensures ShowsAt(vals, ctrls + [c], fs + [FrameOf(c, [])], k)
    {
      if k < |ctrls| {
        assert ShowsAt(vals, ctrls, fs, k);
      }
    }
  }

  // Removing a record whose operands are gone removes its frame.
  lemma DropFrame(vals: seq<Slot>, ctrls: seq<Ctrl>, outer: seq<Frame>, top: Frame)
    requires Shows(vals, ctrls, outer + [top]) && |vals| == ctrls[|outer|].height
    ensures Shows(vals, ctrls[..|outer|], outer)
  {
    forall k: nat | k < |outer|
      ensures ShowsAt(vals, ctrls[..|outer|], outer, k)
    {
      assert ShowsAt(vals, ctrls, outer + [top], k);
    }
  }

  function CtrlLabel(c: Ctrl): seq<ValType> {
    if c.kind == KLoop then c.ins else c.outs
  }

  class Validator {
    var decls: Decls
    var locals: seq<ValType>
    var funcResults: seq<ValType>
    var vals: seq<Slot>
    var ctrls: seq<Ctrl>

    // The frames below the innermost one, and the innermost one.
    ghost var outer: seq<Frame>
    ghost var top: Frame

    // A validator in the middle of a body.
    ghost predicate Valid()
      reads this
    {
      Shows(vals, ctrls, Frames()) && ctrls[0].kind == KFunc && ctrls[0].outs == funcResults
    }

    ghost function Frames(): seq<Frame>
      reads this
    {
      outer + [top]
    }

    function GetEnv(): Env
      reads this
    {
      decls.In(locals, funcResults)
    }

    ghost function Seg(): Segment
      reads this
    {
      top.seg
    }

    // Only the innermost segment changed, to g.
    twostate predicate Moves(g: Segment)
      requires old(Valid())
      reads this
    {
      Valid() && outer == old(outer) && top == old(top).(seg := g)
    }

    constructor (decls: Decls)
      ensures this.decls == decls
    {
      this.decls := decls;
      locals, funcResults, vals, ctrls := [], [], [], [];
      outer, top := [], Open(KFunc, false, FuncType([], []));
    }

    method Init(decls: Decls, params: seq<ValType>, results: seq<ValType>)
      modifies this
      ensures Valid() && GetEnv() == decls.In(params, results)
      ensures Frames() == Initial(GetEnv()) && this.decls == decls
    {
      this.decls := decls;
      locals := params;
      funcResults := results;
      vals, ctrls := [], [];
      PushCtrl(KFunc, [], results);
    }

    method AddLocals(t: ValType, count: nat)
      modifies `locals
      ensures |locals| == |old(locals)| + count && locals[..|old(locals)|] == old(locals)
      ensures forall k | |old(locals)| <= k < |locals| :: locals[k] == t
    {
      for i := 0 to count
        invariant |locals| == |old(locals)| + i && locals[..|old(locals)|] == old(locals)
        invariant forall k | |old(locals)| <= k < |locals| :: locals[k] == t
      {
        locals := locals + [t];
      }
    }

    /* The operand stack. */

    method PushVal(x: Slot)
      requires Valid()
      modifies `vals, `top
      ensures Moves(Push(old(Seg()), x))
    {
      ghost var c := ctrls[|ctrls| - 1];
      assert ShowsAt(vals, ctrls, Frames(), |outer|);
      ChangeTop(vals, ctrls, outer, top, c, vals[c.height..] + [x]);
      assert vals + [x] == vals[..c.height] + (vals[c.height..] + [x]);
      assert ctrls == ctrls[..|outer|] + [c];
      vals := vals + [x];
      top := top.(seg := Push(top.seg, x));
    }

    method PopVal() returns (r: Checked<Slot>)
      requires Valid()
      modifies `vals, `top
      ensures r.Accepted? <==> PopAny(old(Seg())).Some?
      ensures r.Accepted? ==>
                r.value == PopAny(old(Seg())).value.0 && Moves(PopAny(old(Seg())).value.1)
    {
      var f := ctrls[|ctrls| - 1];
      assert ShowsAt(vals, ctrls, Frames(), |outer|);
      if |vals| == f.height {
        if f.unreachable {
          return Accepted(Unknown);
        }
        return Rejected;
      }
      var t := vals[|vals| - 1];
      ghost var n := |vals| - 1;
      ChangeTop(vals, ctrls, outer, top, f, vals[f.height..n]);
      assert vals[..n] == vals[..f.height] + vals[f.height..n];
      assert vals[f.height..][..n - f.height] == vals[f.height..n];
      assert ctrls == ctrls[..|outer|] + [f];
      vals := vals[..|vals| - 1];
      top := top.(seg := PopAny(top.seg).value.1);
      return Accepted(t);
    }

    method PopExpect(e: Slot) returns (r: Checked<Slot>)
      requires Valid()
      modifies `vals, `top
      ensures r.Accepted? <==> Machine.PopExpect(old(Seg()), e).Some?
      ensures r.Accepted? ==>
                && r.value == Machine.PopExpect(old(Seg()), e).value.0
                && Moves(Machine.PopExpect(old(Seg()), e).value.1)
    {
      var a :- PopVal();
      if a != Unknown && e != Unknown && a != e {
        return Rejected;
      }
      return Accepted(a);
    }

    method PushVals(ts: seq<ValType>)
      requires Valid()
      modifies `vals, `top
      ensures Moves(PushList(old(Seg()), ts))
    {
      ghost var g := Seg();
      assert g.slots + KnownAll([]) == g.slots;
      for i := 0 to |ts|
        invariant Moves(PushList(g, ts[..i]))
      {
        assert ts[..i + 1][..i] == ts[..i];
        assert g.slots + KnownAll(ts[..i + 1]) == (g.slots + KnownAll(ts[..i])) + [Known(ts[i])];
        PushVal(Known(ts[i]));
      }
      assert ts[..|ts|] == ts;
    }

    method PopVals(ts: seq<ValType>) returns (r: Checked<()>)
      requires Valid()
      modifies `vals, `top
      ensures r.Accepted? <==> PopList(old(Seg()), ts).Some?
      ensures r.Accepted? ==> Moves(PopList(old(Seg()), ts).value)
    {
      assert ts[..|ts|] == ts;
      for i := |ts| downto 0
        invariant Valid() && Moves(Seg())
        invariant PopList(old(Seg()), ts) == PopList(Seg(), ts[..i])
      {
        assert ts[..i + 1][..i] == ts[..i];
        var _ :- PopExpect(Known(ts[i]));
      }
      return Accepted(());
    }

    // Pops b, then a.
    method PopBoth(a: ValType, b: ValType) returns (r: Checked<()>)
      requires Valid()
      modifies `vals, `top
      ensures r.Accepted? <==> PopList(old(Seg()), [a, b]).Some?
      ensures r.Accepted? ==> Moves(PopList(old(Seg()), [a, b]).value)
    {
      PopTwo(Seg(), a, b);
      var _ :- PopExpect(Known(b));
      var _ :- PopExpect(Known(a));
      return Accepted(());
    }

    // Nothing after this point is reached: drop the frame's operands and make it polymorphic.
    method Unreachable()
      requires Valid()
      modifies `vals, `ctrls, `outer, `top
      ensures Moves(DEAD)
    {
      var n := |ctrls| - 1;
      var f := ctrls[n];
      assert ShowsAt(vals, ctrls, Frames(), n);
      ChangeTop(vals, ctrls, outer, top, f.(unreachable := true), []);
      assert vals[..f.height] + [] == vals[..f.height];
      vals := vals[..f.height];
      ctrls := ctrls[..n] + [f.(unreachable := true)];
      top := top.(seg := DEAD);
    }

    /* The control stack. */

    method PushCtrl(kind: Kind, ins: seq<ValType>, outs: seq<ValType>)
      requires if ctrls == [] then vals == [] && kind == KFunc && outs == funcResults else Valid()
      modifies `vals, `ctrls, `outer, `top
      ensures Valid() && |ctrls| == |old(ctrls)| + 1 && ctrls[..|old(ctrls)|] == old(ctrls)
      ensures outer == (if old(ctrls) == [] then [] else old(Frames()))
      ensures top == Open(kind, false, FuncType(ins, outs))
    {
      var c := Ctrl(kind, false, false, |vals|, ins, outs);
      ghost var fs := if ctrls == [] then [] else Frames();
      AddFrame(vals, ctrls, fs, c);
      outer, top := fs, FrameOf(c, []);
      ctrls := ctrls + [c];
      PushVals(ins);
      assert [] + KnownAll(ins) == KnownAll(ins);
    }

    method PopCtrl() returns (r: Checked<Ctrl>)
      requires Valid()
      modifies `vals, `ctrls, `outer, `top
      ensures r.Accepted? <==> Closes(old(top))
      ensures r.Accepted? ==>
                && r.value == old(ctrls)[|old(ctrls)| - 1] && ctrls == old(ctrls)[..|old(ctrls)| - 1]
                && if ctrls == [] then vals == [] else Valid() && Frames() == old(outer)
      ensures r.Accepted? ==> r.value.kind == old(top).kind && r.value.elseSeen == old(top).elseSeen
      ensures r.Accepted? ==> FuncType(r.value.ins, r.value.outs) == old(top).sig
    {
      var f := ctrls[|ctrls| - 1];
      assert ShowsAt(vals, ctrls, Frames(), |outer|);
      var _ :- PopVals(f.outs);
      assert ShowsAt(vals, ctrls, Frames(), |outer|);
      if |vals| != f.height {
        return Rejected;
      }
      DropFrame(vals, ctrls, outer, top);
      ctrls := ctrls[..|ctrls| - 1];
      if outer != [] {
        assert outer == outer[..|outer| - 1] + [outer[|outer| - 1]];
        outer, top := outer[..|outer| - 1], outer[|outer| - 1];
      }
      return Accepted(f);
    }

    /* Hooks. */

    // What a hook for one instruction promises: it applies the instruction's effect to the
    // innermost segment, or fails exactly when the effect cannot be applied.
    twostate predicate Applies(accepted: bool, op: Op)
      requires old(Valid())
      reads this
    {
      var next := ApplyEffect(old(Seg()), EffectOf(old(GetEnv()), LabelsOf(old(Frames())), op));
      && (accepted <==> next.Some?)
      && (accepted ==> Moves(next.value))
    }

    // What every hook promises: it takes the machine's step, or fails exactly when that fails.
    twostate predicate Takes(accepted: bool, next: Option<seq<Frame>>)
      reads this
    {
      && (accepted <==> next.Some?)
      && (accepted ==>
            && Valid() && Frames() == next.value
            && locals == old(locals) && funcResults == old(funcResults) && decls == old(decls))
    }

    method OnFixed(row: Row, imm: Imm) returns (r: Checked<()>)
      requires Valid() && !imm.Mem? && !imm.MemLane?
      modifies `vals, `ctrls, `outer, `top
      ensures Applies(r.Accepted?, Fixed(row, imm))
    {
      var _ :- PopVals(row.pops);
      PushVals(row.pushes);
      return Accepted(());
    }

    method OnMemArg(row: Row, imm: Imm) returns (r: Checked<()>)
      requires Valid() && (imm.Mem? || imm.MemLane?)
      modifies `vals, `ctrls, `outer, `top
      ensures Applies(r.Accepted?, Fixed(row, imm))
    {
      var memidx := if imm.Mem? then imm.arg.memory else imm.larg.memory;
      if memidx != 0 && !decls.multiMemory {
        return Rejected;
      }
      var pops := row.pops;
      if |pops| >= 1 && pops[0] == I32 {
        pops := [decls.addr] + pops[1..];
      }
      var _ :- PopVals(pops);
      PushVals(row.pushes);
      return Accepted(());
    }

    method OnNone(op: Op) returns (r: Checked<()>)
      requires Valid() && (op.Drop? || op.Select? || op.Return? || op.Unreachable? || op.RefIsNull?)
      modifies `vals, `ctrls, `outer, `top
      ensures Applies(r.Accepted?, op)
    {
      match op {
        case Drop =>
          var _ :- PopVal();
        case Select =>
          var _ :- PopExpect(Known(I32));
          var t2 :- PopVal();
          var t1 :- PopExpect(t2);
          PushVal(if t1 == Unknown then t2 else t1);
        case Return =>
          var _ :- PopVals(funcResults);
          Unreachable();
        case Unreachable =>
          Unreachable();
        case RefIsNull =>
          var _ :- PopVal();
          PushVal(Known(I32));
      }
      return Accepted(());
    }

    method OnLocal(op: Op) returns (r: Checked<()>)
      requires Valid() && (op.LocalGet? || op.LocalSet? || op.LocalTee?)
      modifies `vals, `ctrls, `outer, `top
      ensures Applies(r.Accepted?, op)
    {
      if op.local >= |locals| {
        return Rejected;
      }
      var t := locals[op.local];
      PopOne(Seg(), t);
      match op {
        case LocalGet(_) =>
          PushVals([t]);
        case LocalSet(_) =>
          var _ :- PopExpect(Known(t));
          PushNone(Seg());
        case LocalTee(_) =>
          var _ :- PopExpect(Known(t));
          PushVals([t]);
      }
      return Accepted(());
    }

    method OnRefNull(t: RefType) returns (r: Checked<()>)
      requires Valid()
      modifies `vals, `ctrls, `outer, `top
      ensures Applies(r.Accepted?, RefNull(t))
    {
      PushVals([t]);
      return Accepted(());
    }

    method OnSelectT(t: ValType) returns (r: Checked<()>)
      requires Valid()
      modifies `vals, `ctrls, `outer, `top
      ensures Applies(r.Accepted?, SelectT(t))
    {
      PopLast(Seg(), [t, t], I32);
      assert [t, t] + [I32] == [t, t, I32];
      var _ :- PopExpect(Known(I32));
      var _ :- PopBoth(t, t);
      PushVals([t]);
      return Accepted(());
    }

    method OnGlobal(op: Op) returns (r: Checked<()>)
      requires Valid() && (op.GlobalGet? || op.GlobalSet?)
      modifies `vals, `ctrls, `outer, `top
      ensures Applies(r.Accepted?, op)
    {
      if op.global >= |decls.globals| {
        return Rejected;
      }
      var t := decls.globals[op.global].t;
      if op.GlobalGet? {
        PushVals([t]);
      } else {
        if !decls.globals[op.global].mutable {
          return Rejected;
        }
        PopOne(Seg(), t);
        var _ :- PopExpect(Known(t));
        PushNone(Seg());
      }
      return Accepted(());
    }

    method OnFuncIdx(op: Op) returns (r: Checked<()>)
      requires Valid() && (op.Call? || op.RefFunc?)
      requires op.Call? && op.func < |decls.funcs| ==> decls.funcs[op.func] < |decls.types|
      modifies `vals, `ctrls, `outer, `top
      ensures Applies(r.Accepted?, op)
    {
      if op.func >= |decls.funcs| {
        return Rejected;
      }
      if op.Call? {
        var sig := decls.types[decls.funcs[op.func]];
        assert sig.params + [] == sig.params;
        var _ :- PopVals(sig.params);
        PushVals(sig.results);
      } else {
        PushVals([FuncRef]);
      }
      return Accepted(());
    }

    method OnTable(op: Op) returns (r: Checked<()>)
      requires Valid()
      requires op.TableGet? || op.TableSet? || op.TableSize? || op.TableGrow? || op.TableFill?
      modifies `vals, `ctrls, `outer, `top
      ensures Applies(r.Accepted?, op)
    {
      if op.table >= |decls.tables| {
        return Rejected;
      }
      var elem := decls.tables[op.table];
      if op.TableGrow? || op.TableFill? {
        r := OnTableBulk(op, elem);
      } else {
        r := OnTableOne(op, elem);
      }
    }

    method OnTableOne(op: Op, elem: RefType) returns (r: Checked<()>)
      requires Valid() && (op.TableGet? || op.TableSet? || op.TableSize?)
      requires op.table < |decls.tables| && elem == decls.tables[op.table]
      modifies `vals, `ctrls, `outer, `top
      ensures Applies(r.Accepted?, op)
    {
      if op.TableGet? {
        PopOne(Seg(), I32);
        var _ :- PopExpect(Known(I32));
        PushVals([elem]);
      } else if op.TableSet? {
        var _ :- PopBoth(I32, elem);
        PushNone(Seg());
      } else {
        PushVals([I32]);
      }
      return Accepted(());
    }

    // table.grow takes an initial value and a count; table.fill an index, a value and a count.
    method OnTableBulk(op: Op, elem: RefType) returns (r: Checked<()>)
      requires Valid() && (op.TableGrow? || op.TableFill?)
      requires op.table < |decls.tables| && elem == decls.tables[op.table]
      modifies `vals, `ctrls, `outer, `top
      ensures Applies(r.Accepted?, op)
    {
      if op.TableGrow? {
        var _ :- PopBoth(elem, I32);
        PushVals([I32]);
      } else {
        PopLast(Seg(), [I32, elem], I32);
        assert [I32, elem] + [I32] == [I32, elem, I32];
        var _ :- PopExpect(Known(I32));
        var _ :- PopBoth(I32, elem);
        PushNone(Seg());
      }
      return Accepted(());
    }

    method OnCallIndirect(sig: u32, table: u32) returns (r: Checked<()>)
      requires Valid()
      modifies `vals, `ctrls, `outer, `top
      ensures Applies(r.Accepted?, CallIndirect(sig, table))
    {
      if table >= |decls.tables| || sig >= |decls.types| {
        return Rejected;
      }
      PopLast(Seg(), decls.types[sig].params, I32);
      var _ :- PopExpect(Known(I32));
      var _ :- PopVals(decls.types[sig].params);
      PushVals(decls.types[sig].results);
      return Accepted(());
    }

    /* Branches. */

    method FrameAt(rel: nat) returns (r: Checked<Ctrl>)
      requires Valid()
      ensures r.Accepted? <==> rel < |LabelsOf(Frames())|
      ensures r.Accepted? ==> CtrlLabel(r.value) == LabelAt(LabelsOf(Frames()), rel)
    {
      LabelsAt(Frames());
      if rel >= |ctrls| {
        return Rejected;
      }
      assert ShowsAt(vals, ctrls, Frames(), |ctrls| - 1 - rel);
      return Accepted(ctrls[|ctrls| - 1 - rel]);
    }

    method OnBr(rel: u32) returns (r: Checked<()>)
      requires Valid()
      modifies `vals, `ctrls, `outer, `top
      ensures Applies(r.Accepted?, Br(rel))
    {
      var c :- FrameAt(rel);
      var _ :- PopVals(CtrlLabel(c));
      Unreachable();
      return Accepted(());
    }

    // What a conditional branch and a branch table start with: an index or condition, and the target's frame.
    // Popping the target's label then is popping both.
    method PopBranch(rel: u32) returns (r: Checked<Ctrl>)
      requires Valid()
      modifies `vals, `ctrls, `outer, `top
      ensures var labels := LabelsOf(old(Frames())); var want := if rel < |labels| then LabelAt(labels, rel) else [];
        && (!r.Accepted? ==> rel >= |labels| || PopList(old(Seg()), want + [I32]).None?)
        && (r.Accepted? ==>
              && rel < |labels| && CtrlLabel(r.value) == want && Moves(Seg()) && LabelsOf(Frames()) == labels
              && PopList(old(Seg()), want + [I32]) == PopList(Seg(), want))
    {
      ghost var labels := LabelsOf(Frames());
      if rel < |labels| {
        PopLast(Seg(), LabelAt(labels, rel), I32);
      }
      ghost var fs := Frames();
      var _ :- PopExpect(Known(I32));
      WithTopLabels(fs, Seg());
      var c :- FrameAt(rel);
      return Accepted(c);
    }

    method OnBrIf(rel: u32) returns (r: Checked<()>)
      requires Valid()
      modifies `vals, `ctrls, `outer, `top
      ensures Applies(r.Accepted?, BrIf(rel))
    {
      var c :- PopBranch(rel);
      var _ :- PopVals(CtrlLabel(c));
      PushVals(CtrlLabel(c));
      return Accepted(());
    }

    // Every target must exist and have the arity of the default.
    method CheckTargets(rels: seq<u32>, arity: nat) returns (r: Checked<()>)
      requires Valid()
      ensures r.Accepted? <==>
              forall k | 0 <= k < |rels| ::
                rels[k] < |LabelsOf(Frames())| && |LabelAt(LabelsOf(Frames()), rels[k])| == arity
    {
      for i := 0 to |rels|
        invariant forall k | 0 <= k < i ::
            rels[k] < |LabelsOf(Frames())| && |LabelAt(LabelsOf(Frames()), rels[k])| == arity
      {
        var c :- FrameAt(rels[i]);
        if |CtrlLabel(c)| != arity {
          return Rejected;
        }
      }
      return Accepted(());
    }

    method OnBrTable(rels: seq<u32>, default: u32) returns (r: Checked<()>)
      requires Valid()
      modifies `vals, `ctrls, `outer, `top
      ensures Applies(r.Accepted?, BrTable(rels, default))
    {
      r := Rejected;
      var d := PopBranch(default);
      if d.Accepted? {
        r := LeaveByTable(rels, d.value);
      }
    }

    // Behind the index: the targets and the operands the default takes along.
    method LeaveByTable(rels: seq<u32>, d: Ctrl) returns (r: Checked<()>)
      requires Valid()
      modifies `vals, `ctrls, `outer, `top
      ensures r.Accepted? <==>
              && (forall k | 0 <= k < |rels| ::
                    && rels[k] < |LabelsOf(old(Frames()))|
                    && |LabelAt(LabelsOf(old(Frames())), rels[k])| == |CtrlLabel(d)|)
              && PopList(old(Seg()), CtrlLabel(d)).Some?
      ensures r.Accepted? ==> Moves(DEAD)
    {
      var _ :- CheckTargets(rels, |CtrlLabel(d)|);
      var _ :- PopVals(CtrlLabel(d));
      Unreachable();
      return Accepted(());
    }

    // The hook each instruction method runs before it writes its bytes.
    method OnOp(op: Op) returns (r: Checked<()>)
      requires Valid() && forall k | 0 <= k < |decls.funcs| :: decls.funcs[k] < |decls.types|
      modifies `vals, `ctrls, `outer, `top
      ensures Takes(r.Accepted?, Step(old(GetEnv()), old(Frames()), Do(op)))
    {
      var ok := ApplyOp(op);
      assert Top(old(Frames())) == old(top) && Outer(old(Frames())) == old(outer);
      return ok;
    }

    method ApplyOp(op: Op) returns (r: Checked<()>)
      requires Valid() && forall k | 0 <= k < |decls.funcs| :: decls.funcs[k] < |decls.types|
      modifies `vals, `ctrls, `outer, `top
      ensures Applies(r.Accepted?, op)
    {
      match op
      case Fixed(row, imm) =>
        if imm.Mem? || imm.MemLane? {
          r := OnMemArg(row, imm);
        } else {
          r := OnFixed(row, imm);
        }
      case LocalGet(_) => r := OnLocal(op);
      case LocalSet(_) => r := OnLocal(op);
      case LocalTee(_) => r := OnLocal(op);
      case GlobalGet(_) => r := OnGlobal(op);
      case GlobalSet(_) => r := OnGlobal(op);
      case TableGet(_) => r := OnTable(op);
      case TableSet(_) => r := OnTable(op);
      case TableSize(_) => r := OnTable(op);
      case TableGrow(_) => r := OnTable(op);
      case TableFill(_) => r := OnTable(op);
      case RefNull(t) => r := OnRefNull(t);
      case RefFunc(_) => r := OnFuncIdx(op);
      case Call(_) => r := OnFuncIdx(op);
      case CallIndirect(sig, table) => r := OnCallIndirect(sig, table);
      case SelectT(t) => r := OnSelectT(t);
      case Br(rel) => r := OnBr(rel);
      case BrIf(rel) => r := OnBrIf(rel);
      case BrTable(rels, default) => r := OnBrTable(rels, default);
      case _ => r := OnNone(op);
    }

    /* Opening and closing frames. */

    method OnCtrlStart(kind: FrameKind, bt: BlockType) returns (r: Checked<()>)
      requires Valid()
      requires bt.Indexed? ==> bt.idx < |decls.types|
      modifies `vals, `ctrls, `outer, `top
      ensures Takes(r.Accepted?, Step(old(GetEnv()), old(Frames()), Start(kind, bt)))
      ensures r.Accepted? ==> |ctrls| == |old(ctrls)| + 1
    {
      var ins, outs := BlockTypes(bt);
      var _ :- PopEntry(kind, FuncType(ins, outs));
      PushCtrl(kind, ins, outs);
      return Accepted(());
    }

    method BlockTypes(bt: BlockType) returns (ins: seq<ValType>, outs: seq<ValType>)
      requires bt.Indexed? ==> bt.idx < |decls.types|
      ensures Expand(GetEnv(), bt) == Some(FuncType(ins, outs))
    {
      ins, outs := [], [];
      match bt {
        case Void =>
        case Value(t) => outs := [t];
        case Indexed(i) => ins, outs := decls.types[i].params, decls.types[i].results;
      }
    }

    // An if also pops its condition.
    method PopEntry(kind: FrameKind, ft: FuncType) returns (r: Checked<()>)
      requires Valid()
      modifies `vals, `ctrls, `outer, `top
      ensures r.Accepted? <==> PopList(old(Seg()), Entry(kind, ft)).Some?
      ensures r.Accepted? ==> Moves(PopList(old(Seg()), Entry(kind, ft)).value)
    {
      PopLast(Seg(), ft.params, I32);
      if kind == KIf {
        var _ :- PopExpect(Known(I32));
      }
      var _ :- PopVals(ft.params);
      return Accepted(());
    }

    method OnElse() returns (r: Checked<()>)
      requires Valid()
      modifies `vals, `ctrls, `outer, `top
      ensures Takes(r.Accepted?, Step(old(GetEnv()), old(Frames()), Else))
      ensures r.Accepted? ==> |ctrls| == |old(ctrls)|
    {
      var f :- PopCtrl();
      if f.kind != KIf || f.elseSeen {
        return Rejected;
      }
      PushCtrl(KIf, f.ins, f.outs);
      MarkElse();
      return Accepted(());
    }

    method MarkElse()
      requires Valid() && |ctrls| >= 2
      modifies `ctrls, `top
      ensures Valid() && outer == old(outer) && top == old(top).(elseSeen := true)
      ensures |ctrls| == |old(ctrls)|
    {
      var n := |ctrls| - 1;
      ghost var c := ctrls[n].(elseSeen := true);
      assert ShowsAt(vals, ctrls, Frames(), n);
      ChangeTop(vals, ctrls, outer, top, c, vals[c.height..]);
      assert vals[..c.height] + vals[c.height..] == vals;
      ctrls := ctrls[..n] + [ctrls[n].(elseSeen := true)];
      top := top.(elseSeen := true);
    }

    // The emitter never closes the body's own frame this way. If it did, the results would be left on the
    // operand stack with no frame around them.
    method OnEnd() returns (r: Checked<()>)
      requires Valid()
      modifies `vals, `ctrls, `outer, `top
      ensures |old(ctrls)| >= 2 ==> Takes(r.Accepted?, Step(old(GetEnv()), old(Frames()), End))
      ensures |old(ctrls)| == 1 ==>
                && (r.Accepted? <==> Closes(old(top)))
                && (r.Accepted? ==> vals == KnownAll(old(top).sig.results))
      ensures r.Accepted? ==> |ctrls| == |old(ctrls)| - 1
    {
      EndSteps(GetEnv(), outer, top);
      var f := ctrls[|ctrls| - 1];
      assert |ctrls| == |outer| + 1 && FuncType(f.ins, f.outs) == top.sig by {
        assert ShowsAt(vals, ctrls, Frames(), |outer|);
      }
      assert f.kind == top.kind && f.elseSeen == top.elseSeen && (outer == [] ==> top.kind == KFunc) by {
        assert ShowsAt(vals, ctrls, Frames(), |outer|);
      }
      r := Rejected;
      if f.kind != KIf || f.elseSeen || f.ins == f.outs {
        r := Close();
      }
    }

    // The innermost frame gives way to its results.
    method Close() returns (r: Checked<()>)
      requires Valid()
      modifies `vals, `ctrls, `outer, `top
      ensures r.Accepted? <==> Closes(old(top))
      ensures r.Accepted? && |old(ctrls)| >= 2 ==>
                Valid() && Frames() == WithTop(old(outer), PushList(Top(old(outer)).seg, old(top).sig.results))
      ensures r.Accepted? && |old(ctrls)| == 1 ==> vals == KnownAll(old(top).sig.results)
      ensures r.Accepted? ==> |ctrls| == |old(ctrls)| - 1
    {
      var c :- PopCtrl();
      PushResults(c.outs);
      return Accepted(());
    }

    // Pushing with or without a frame left.
    method PushResults(ts: seq<ValType>)
      requires if ctrls == [] then vals == [] else Valid()
      modifies `vals, `top
      ensures old(ctrls) != [] ==> Moves(PushList(old(Seg()), ts))
      ensures old(ctrls) == [] ==> vals == KnownAll(ts)
    {
      if ctrls == [] {
        vals := vals + KnownAll(ts);
      } else {
        PushVals(ts);
      }
    }

    method OnFunctionEnd() returns (r: Checked<()>)
      requires Valid()
      modifies `vals, `ctrls, `outer, `top
      ensures r.Accepted? <==> |old(Frames())| == 1 && Closes(old(top))
    {
      var _ :- PopCtrl();
      if ctrls != [] {
        return Rejected;
      }
      return Accepted(());
    }
  }

  // The step for `end`, in terms of the innermost frame and the others.
  lemma EndSteps(env: Env, outer: seq<Frame>, top: Frame)
    ensures Step(env, outer + [top], End) ==
            if outer != [] && Closes(top) && (top.kind == KIf && !top.elseSeen ==> top.sig.params == top.sig.results)
            then Some(WithTop(outer, PushList(Top(outer).seg, top.sig.results))) else None
  {
    assert Outer(outer + [top]) == outer && Top(outer + [top]) == top;
  }

  lemma PushNone(g: Segment)
    ensures PushList(g, []) == g
  {
    assert g.slots + KnownAll([]) == g.slots;
  }

  lemma PopOne(g: Segment, a: ValType)
    ensures PopList(g, [a]) == PopType(g, a)
  {
    assert [] + [a] == [a];
    PopLast(g, [], a);
  }

  lemma PopTwo(g: Segment, a: ValType, b: ValType)
    ensures PopList(g, [a, b]) == Then(PopType(g, b), a)
  {
    assert [a] + [b] == [a, b];
    PopLast(g, [a], b);
    if PopType(g, b).Some? {
      PopOne(PopType(g, b).value, a);
    }
  }
}
