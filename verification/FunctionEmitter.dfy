/**
 The function emitter: one object per body, writing bytes as calls arrive and, under the validating
 policy, driving the validator in lockstep. Frames are handles; branches turn them into relative labels.
 */
module Emission {
  import opened Ints
  import opened Syntax
  import opened Leb128
  import opened Buffers
  import opened Codec
  import opened Encoding
  import opened Body
  import opened Emitters
  import opened Typing
  import opened Machine
  import opened Acceptance
  import opened Nesting
  import opened Growth
  import opened Validation

  // The locals a list of runs declares.
  function ExpandRuns(runs: seq<LocalRun>): seq<ValType> {
    if runs == [] then []
    else ExpandRuns(runs[..|runs| - 1]) + Repeat(runs[|runs| - 1].t, runs[|runs| - 1].count)
  }

  // Neighbouring runs differ in type.
  predicate Merged(runs: seq<LocalRun>) {
    forall k | 0 <= k < |runs| - 1 :: runs[k].t != runs[k + 1].t
  }

  // Whether a declaration keeps the run it extends within 32 bits.
  predicate RunFits(runs: seq<LocalRun>, t: ValType, n: int) {
    IsU32(n) && (runs != [] && runs[|runs| - 1].t == t ==> runs[|runs| - 1].count + n < 0x1_0000_0000)
  }

  // Declaring n locals of type t: extend the last run if it has that type, else start a new one.
  function AddRun(runs: seq<LocalRun>, t: ValType, n: u32): seq<LocalRun>
    requires RunFits(runs, t, n)
  {
    if runs != [] && runs[|runs| - 1].t == t
    then runs[..|runs| - 1] + [LocalRun(t, runs[|runs| - 1].count + n)]
    else runs + [LocalRun(t, n)]
  }

  lemma {:induction false} RepeatSum(t: ValType, m: nat, n: nat)
    ensures Repeat(t, m + n) == Repeat(t, m) + Repeat(t, n)
    decreases n
  {}

  lemma SnocRun(runs: seq<LocalRun>, r: LocalRun)
    ensures ExpandRuns(runs + [r]) == ExpandRuns(runs) + Repeat(r.t, r.count)
  {
    assert (runs + [r])[..|runs|] == runs;
  }

  lemma {:induction false} ExpandedLength(runs: seq<LocalRun>)
    ensures |ExpandRuns(runs)| == TotalLocals(runs)
    decreases |runs|
  {
    if runs != [] {
      ExpandedLength(runs[..|runs| - 1]);
    }
  }

  lemma LongerRun(runs: seq<LocalRun>, r: LocalRun, n: u32)
    requires r.count + n < 0x1_0000_0000
    ensures ExpandRuns(runs + [LocalRun(r.t, r.count + n)]) == ExpandRuns(runs + [r]) + Repeat(r.t, n)
  {
    SnocRun(runs, r);
    SnocRun(runs, LocalRun(r.t, r.count + n));
    RepeatSum(r.t, r.count, n);
    Assoc(ExpandRuns(runs), Repeat(r.t, r.count), Repeat(r.t, n));
  }

  lemma AddRunMerges(runs: seq<LocalRun>, t: ValType, n: u32)
    requires RunFits(runs, t, n) && Merged(runs)
    ensures Merged(AddRun(runs, t, n))
  {}

  lemma AddRunExpands(runs: seq<LocalRun>, t: ValType, n: u32)
    requires RunFits(runs, t, n)
    ensures ExpandRuns(AddRun(runs, t, n)) == ExpandRuns(runs) + Repeat(t, n)
  {
    if runs == [] || runs[|runs| - 1].t != t {
      SnocRun(runs, LocalRun(t, n));
    } else {
      var init, last := runs[..|runs| - 1], runs[|runs| - 1];
      assert runs == init + [last];
      LongerRun(init, last, n);
    }
  }

  // The runs the declarations among the calls leave.
  function RunsOf(calls: seq<Call>): seq<LocalRun> {
    if calls == [] then []
    else
      var runs, last := RunsOf(calls[..|calls| - 1]), calls[|calls| - 1];
      if last.Declare? && RunFits(runs, last.t, last.count) then AddRun(runs, last.t, last.count) else runs
  }

  // The calls leave these runs.
  ghost predicate Leaves(calls: seq<Call>, runs: seq<LocalRun>) {
    forall cs | cs == calls :: RunsOf(cs) == runs
  }

  // What a declaration does to the runs and to the locals they stand for.
  lemma RunsGrow(params: seq<ValType>, runs: seq<LocalRun>, calls: seq<Call>, t: ValType, n: u32)
    requires RunFits(runs, t, n) && Merged(runs) && Leaves(calls, runs)
    ensures Leaves(calls + [Declare(t, n)], AddRun(runs, t, n)) && Merged(AddRun(runs, t, n))
    ensures |ExpandRuns(AddRun(runs, t, n))| == |ExpandRuns(runs)| + n
    ensures params + ExpandRuns(AddRun(runs, t, n)) == params + ExpandRuns(runs) + Repeat(t, n)
  {
    AddRunExpands(runs, t, n);
    AddRunMerges(runs, t, n);
    Assoc(params, ExpandRuns(runs), Repeat(t, n));
    assert (calls + [Declare(t, n)])[..|calls|] == calls;
  }

  lemma LastRunFits(runs: seq<LocalRun>)
    ensures runs != [] ==> runs[|runs| - 1].count <= |ExpandRuns(runs)|
  {}

  predicate DeclsOk(d: Decls) {
    forall k | 0 <= k < |d.funcs| :: d.funcs[k] < |d.types|
  }

  predicate Mirrors(fs: seq<Frame>, control: seq<FrameKind>) {
    |fs| == |control| + 1 && forall k | 0 <= k < |control| :: fs[k + 1].kind == control[k]
  }

  // One more call in the log.
  lemma LogEmit(env: Env, calls: seq<Call>, runs: seq<LocalRun>, ev: Event)
    requires Leaves(calls, runs)
    ensures Leaves(calls + [Emit(ev)], runs)
    ensures EventsOf(calls + [Emit(ev)]) == EventsOf(calls) + [ev]
    ensures EncEvents(EventsOf(calls + [Emit(ev)])) == EncEvents(EventsOf(calls)) + EncEvent(ev)
    ensures AllLocals(env.locals, calls + [Emit(ev)]) == AllLocals(env.locals, calls)
    ensures RunCalls(env, Initial(env), calls).Some? ==>
              var (e, fs) := RunCalls(env, Initial(env), calls).value;
              RunCalls(env, Initial(env), calls + [Emit(ev)]) ==
              if Step(e, fs, ev).Some? then Some((e, Step(e, fs, ev).value)) else None
  {
    var more := calls + [Emit(ev)];
    assert more[..|calls|] == calls;
    EncAllSnoc(EncEvent, EventsOf(calls), ev);
  }

  lemma LogDeclare(env: Env, calls: seq<Call>, t: ValType, n: nat)
    ensures EventsOf(calls + [Declare(t, n)]) == EventsOf(calls)
    ensures AllLocals(env.locals, calls + [Declare(t, n)]) == AllLocals(env.locals, calls) + Repeat(t, n)
    ensures RunCalls(env, Initial(env), calls).Some? ==>
              var (e, fs) := RunCalls(env, Initial(env), calls).value;
              RunCalls(env, Initial(env), calls + [Declare(t, n)])
              == Some((e.(locals := e.locals + Repeat(t, n)), fs))
  {
    var more := calls + [Declare(t, n)];
    assert more[..|calls|] == calls;
  }

  // The calls leave these blocks open.
  ghost predicate LeavesOpen(calls: seq<Call>, open: seq<Opening>) {
    forall cs | cs == calls :: OpenAfter(EventsOf(cs)) == open
  }

  lemma LeavesOpenEmit(calls: seq<Call>, open: seq<Opening>, ev: Event)
    requires LeavesOpen(calls, open)
    ensures LeavesOpen(calls + [Emit(ev)], Nest(open, |EventsOf(calls)|, ev))
  {
    assert (calls + [Emit(ev)])[..|calls|] == calls;
    OpenSnoc(EventsOf(calls), ev);
  }

  lemma LeavesOpenDeclare(calls: seq<Call>, open: seq<Opening>, t: ValType, n: nat)
    requires LeavesOpen(calls, open)
    ensures LeavesOpen(calls + [Declare(t, n)], open)
  {
    SameEvents(calls, t, n);
    assert OpenAfter(EventsOf(calls)) == open;
  }

  lemma SameEvents(calls: seq<Call>, t: ValType, n: nat)
    ensures EventsOf(calls + [Declare(t, n)]) == EventsOf(calls)
  {
    assert (calls + [Declare(t, n)])[..|calls|] == calls;
  }

  // The frames the machine has after a log are those of its open blocks.
  lemma CallsMatch(env: Env, calls: seq<Call>)
    requires RunCalls(env, Initial(env), calls).Some?
    ensures var (e, fs) := RunCalls(env, Initial(env), calls).value;
      FramesMatch(e, fs, OpenAfter(EventsOf(calls)))
  {
    var full := env.(locals := AllLocals(env.locals, calls));
    LocalsOnTheWay(env, Initial(env), calls);
    assert Initial(full) == Initial(env);
    RunMatches(full, EventsOf(calls));
  }

  lemma FramesAreBlocks(env: Env, calls: seq<Call>, blocks: seq<Opening>, e: Env, fs: seq<Frame>)
    requires RunCalls(env, Initial(env), calls) == Some((e, fs)) && LeavesOpen(calls, blocks)
    ensures FramesMatch(e, fs, blocks)
  {
    CallsMatch(env, calls);
    assert OpenAfter(EventsOf(calls)) == blocks;
  }

  lemma LogMeansBlock(calls: seq<Call>, blocks: seq<Opening>, rel: nat)
    requires LeavesOpen(calls, blocks) && rel < |blocks|
    ensures var o := blocks[|blocks| - 1 - rel];
      Targets(EventsOf(calls), rel, o) && o.at < |EventsOf(calls)| && EventsOf(calls)[o.at] == Start(o.kind, o.bt)
  {
    assert OpenAfter(EventsOf(calls)) == blocks;
    TargetIsStart(EventsOf(calls), rel, blocks[|blocks| - 1 - rel]);
  }

  lemma MoreLocals(params: seq<ValType>, calls: seq<Call>, t: ValType, n: nat)
    ensures AllLocals(params, calls + [Declare(t, n)]) == AllLocals(params, calls) + Repeat(t, n)
  {
    assert (calls + [Declare(t, n)])[..|calls|] == calls;
  }

  // Before the first call.
  lemma EmptyLog(params: seq<ValType>)
    ensures Leaves([], []) && LeavesOpen([], []) && EventsOf([]) == [] && EncEvents([]) == []
    ensures AllLocals(params, []) == params == params + ExpandRuns([])
  {}

  /* One instruction, one reservation: each writer asks once for the bytes its shape may need. */

  method WriteOp(code: CodeBuffer, op: Op)
    requires code.Valid() && Wellsized(op) && !ImmOf(op).Mem? && !ImmOf(op).MemLane?
    modifies code, code.data
    ensures code.Appended(EncOp(op))
    ensures code.Charged(old(code.size) + 6 + Reserved(ImmOf(op)))
  {
    ReservationSuffices(op);
    ghost var start := code.Contents();
    var room := Reservation(ImmOf(op));
    var p := code.CursorEnsure(MAX_OP_BYTES + room);
    var q := PutOpcode(code.data, p, OpcodeOf(op));
    q := PutImm(code.data, q, ImmOf(op));
    Assoc(start, EncOpcode(OpcodeOf(op)), EncImm(ImmOf(op)));
    code.SetEnd(q);
  }

  // A memory access: the alignment may be left to the instruction table.
  method WriteAccess(code: CodeBuffer, row: Row, m: MemArg, natural: byte)
    requires code.Valid()
    modifies code, code.data
    ensures var meant := if m.align == 0xFF then MemArg(natural, m.offset, m.memory) else m;
      code.Appended(EncOp(Fixed(row, Mem(meant))))
  {
    ghost var meant := if m.align == 0xFF then MemArg(natural, m.offset, m.memory) else m;
    ghost var op := Fixed(row, Mem(meant));
    ReservationSuffices(op);
    ghost var start := code.Contents();
    var p := code.CursorEnsure(MAX_OP_BYTES + MAX_MEM_ARG);
    var q := PutOpcode(code.data, p, row.opcode);
    q := PutMemArg(code.data, q, m, natural);
    Assoc(start, EncOpcode(row.opcode), EncImm(ImmOf(op)));
    code.SetEnd(q);
  }

  method WriteLaneAccess(code: CodeBuffer, row: Row, m: MemArg, lane: byte, natural: byte)
    requires code.Valid()
    modifies code, code.data
    ensures var meant := if m.align == 0xFF then MemArg(natural, m.offset, m.memory) else m;
      code.Appended(EncOp(Fixed(row, MemLane(meant, lane))))
  {
    ghost var meant := if m.align == 0xFF then MemArg(natural, m.offset, m.memory) else m;
    ghost var op := Fixed(row, MemLane(meant, lane));
    ReservationSuffices(op);
    ghost var start, arg := code.Contents(), EncMemArg(meant);
    var p := code.CursorEnsure(MAX_OP_BYTES + MAX_MEM_ARG + 1);
    var q := PutOpcode(code.data, p, row.opcode);
    q := PutMemArg(code.data, q, m, natural);
    q := PutByteAt(code.data, q, lane);
    Assoc(start, EncOpcode(row.opcode), arg);
    Assoc(start, EncOpcode(row.opcode) + arg, [lane]);
    Assoc(EncOpcode(row.opcode), arg, [lane]);
    code.SetEnd(q);
  }

  method WriteStart(code: CodeBuffer, kind: FrameKind, bt: BlockType)
    requires code.Valid()
    modifies code, code.data
    ensures code.Appended(EncEvent(Start(kind, bt)))
  {
    StartFits(kind, bt);
    ghost var start := code.Contents();
    var p := code.CursorEnsure(MAX_OP_BYTES + 1 + MAX_SLEB33);
    var q := PutOpcode(code.data, p, KindByte(kind));
    q := PutBlockType(code.data, q, bt);
    Assoc(start, EncOpcode(KindByte(kind)), EncBlockType(bt));
    code.SetEnd(q);
  }

  class FunctionEmitter {
    const validate: bool
    var decls: Decls
    var params: seq<ValType>
    var results: seq<ValType>
    var paramCount: nat
    var code: CodeBuffer
    var localRuns: seq<LocalRun>
    var numLocals: nat
    var control: seq<FrameKind>
    var v: Validator

    // The calls that made the body so far, the blocks they leave open, and the handles on those.
    ghost var history: seq<Call>
    ghost var blocks: seq<Opening>
    ghost var open: seq<ControlFrame>

    ghost function Repr(): set<object>
      reads this, code
    {
      {this, code, code.data, v}
    }

    ghost predicate Valid()
      reads this, code, code.data, v
    {
      && code.Valid() && code.Contents() == EncEvents(EventsOf(history))
      && paramCount == |params| && paramCount + numLocals < 0x1_0000_0000 && |control| < 0xFFFF_FFFF
      && LocalsKept() && HandlesKept() && DeclsOk(decls)
      && (validate ==> Lockstep())
    }

    // The runs are those of the calls, merged, and stand for the locals declared so far.
    ghost predicate LocalsKept()
      reads this
    {
      && Leaves(history, localRuns) && Merged(localRuns) && |ExpandRuns(localRuns)| == numLocals
      && AllLocals(params, history) == params + ExpandRuns(localRuns)
    }

    // There is one handle for each open block: it holds its depth, and the call that opened it.
    ghost predicate HandlesKept()
      reads this
    {
      LeavesOpen(history, blocks) && Paired()
    }

    ghost predicate Paired()
      reads this
    {
      && |blocks| == |control| == |open|
      && forall k: nat | k < |open| ::
           && control[k] == blocks[k].kind && open[k].owner == this
           && open[k].depth == k && open[k].opening == blocks[k]
    }

    // The handle's block is open.
    ghost predicate Holds(f: ControlFrame)
      reads this
    {
      f.owner == this && f.depth < |control| && f.depth < |open| && open[f.depth] == f
    }

    // The environment of the body under its declared signature, before any further locals.
    ghost function StartEnv(): Env
      reads this
    {
      decls.In(params, results)
    }

    // The validator has the locals declared so far and the state its machine reaches on the calls made so
    // far; FramesMirror says what that means for the frames.
    ghost predicate Lockstep()
      reads this, v
    {
      && v.Valid() && v.decls == decls && v.funcResults == results
      && v.locals == params + ExpandRuns(localRuns)
      && RunCalls(StartEnv(), Initial(StartEnv()), history) == Some((v.GetEnv(), v.Frames()))
    }

    constructor (validate: bool, decls: Decls, params: seq<ValType>, results: seq<ValType>)
      requires DeclsOk(decls) && |params| < 0x1_0000_0000
      ensures Valid() && fresh(Repr()) && this.validate == validate && history == []
      ensures this.decls == decls && this.params == params && this.results == results
      ensures localRuns == [] && control == [] && open == []
    {
      this.validate := validate;
      this.decls := decls;
      this.params, this.results, paramCount := params, results, |params|;
      code := new CodeBuffer();
      localRuns, numLocals, control, history, blocks, open := [], 0, [], [], [], [];
      v := new Validator(decls);
      new;
      v.Init(decls, params, results);
      EmptyLog(params);
    }

    // One call was added to the log; everything the body is checked against stayed.
    twostate predicate Logged(c: Call)
      reads this, code, code.data, v
    {
      && Valid() && history == old(history) + [c]
      && decls == old(decls) && params == old(params) && results == old(results)
      && v == old(v) && code == old(code) && (code.data == old(code.data) || fresh(code.data))
    }

    // The validator has one frame more than the emitter, of matching kinds.
    lemma FramesMirror()
      requires Valid() && validate
      ensures Mirrors(v.Frames(), control)
    {
      FramesAreBlocks(StartEnv(), history, blocks, v.GetEnv(), v.Frames());
    }

    // The open blocks, their handles and the locals stayed.
    twostate predicate Stays()
      reads this
    {
      control == old(control) && blocks == old(blocks) && open == old(open) && localRuns == old(localRuns)
    }

    // The verdict on a call: always yes without validation, else the machine's.
    ghost function Verdict(ev: Event): bool
      requires validate ==> Lockstep()
      reads this, v
    {
      validate ==> Step(v.GetEnv(), v.Frames(), ev).Some?
    }

    // The validator took the step for `ev`.
    twostate predicate Checks(ev: Event)
      requires old(validate ==> Lockstep())
      reads this, v
    {
      validate ==>
        && v.Valid() && v.decls == decls && v.funcResults == results && v.locals == old(v.locals)
        && Step(old(v.GetEnv()), old(v.Frames()), ev) == Some(v.Frames())
    }

    // The library's validator reads the module at every call. Here the emitter is handed the declarations
    // again after the module has grown; everything emitted so far stays accepted.
    method Refresh(decls: Decls)
      requires Valid() && DeclsOk(decls) && EnvGrows(StartEnv(), decls.In(params, results))
      modifies this, v
      ensures Valid() && this.decls == decls && history == old(history) && Stays()
      ensures params == old(params) && results == old(results) && v == old(v) && code == old(code)
      ensures validate ==> v.Frames() == old(v.Frames())
    {
      if validate {
        CallsGrow(StartEnv(), decls.In(params, results), Initial(StartEnv()), history);
        v.decls := decls;
      }
      this.decls := decls;
    }

    /* Instructions. */

    method Check(op: Op) returns (r: Checked<()>)
      requires Valid()
      modifies v
      ensures r.Accepted? <==> old(Verdict(Do(op)))
      ensures r.Accepted? ==> Checks(Do(op))
    {
      if validate {
        var _ :- v.OnOp(op);
      }
      return Accepted(());
    }

    method Instruction(op: Op) returns (r: Checked<()>)
      requires Valid() && Wellsized(op) && !ImmOf(op).Mem? && !ImmOf(op).MemLane?
      modifies Repr()
      ensures r.Accepted? <==> old(Verdict(Do(op)))
      ensures r.Accepted? ==>
                Logged(Emit(Do(op))) && Stays()
    {
      LogEmit(StartEnv(), history, localRuns, Do(op));
      LeavesOpenEmit(history, blocks, Do(op));
      var _ :- Check(op);
      WriteOp(code, op);
      history := history + [Emit(Do(op))];
      return Accepted(());
    }

    method Access(row: Row, m: MemArg, natural: byte) returns (r: Checked<()>)
      requires Valid()
      modifies Repr()
      ensures var op := Fixed(row, Mem(if m.align == 0xFF then MemArg(natural, m.offset, m.memory) else m));
        && (r.Accepted? <==> old(Verdict(Do(op))))
        && (r.Accepted? ==>
              Logged(Emit(Do(op))) && Stays())
    {
      var op := Fixed(row, Mem(if m.align == 0xFF then MemArg(natural, m.offset, m.memory) else m));
      LogEmit(StartEnv(), history, localRuns, Do(op));
      LeavesOpenEmit(history, blocks, Do(op));
      var _ :- Check(op);
      WriteAccess(code, row, m, natural);
      history := history + [Emit(Do(op))];
      return Accepted(());
    }

    method LaneAccess(row: Row, m: MemArg, lane: byte, natural: byte) returns (r: Checked<()>)
      requires Valid()
      modifies Repr()
      ensures var op := Fixed(row, MemLane(if m.align == 0xFF then MemArg(natural, m.offset, m.memory) else m, lane));
        && (r.Accepted? <==> old(Verdict(Do(op))))
        && (r.Accepted? ==>
              Logged(Emit(Do(op))) && Stays())
    {
      var op := Fixed(row, MemLane(if m.align == 0xFF then MemArg(natural, m.offset, m.memory) else m, lane));
      LogEmit(StartEnv(), history, localRuns, Do(op));
      LeavesOpenEmit(history, blocks, Do(op));
      var _ :- Check(op);
      WriteLaneAccess(code, row, m, lane, natural);
      history := history + [Emit(Do(op))];
      return Accepted(());
    }

    /* Locals. */

    method CheckLocals(t: ValType, count: nat)
      requires validate ==> v.Valid() && v.decls == decls && v.funcResults == results
      modifies v
      ensures validate ==>
                && v.Valid() && v.decls == decls && v.funcResults == results
                && v.locals == old(v.locals) + Repeat(t, count) && v.Frames() == old(v.Frames())
      ensures !validate ==> unchanged(v)
    {
      if validate {
        v.AddLocals(t, count);
        assert v.locals == old(v.locals) + Repeat(t, count);
      }
    }

    // The handle indexes the first of the new locals, all of which have type t.
    method DeclareLocals(t: ValType, count: u32) returns (first: nat)
      requires Valid() && paramCount + numLocals + count < 0x1_0000_0000
      modifies Repr()
      ensures Logged(Declare(t, count)) && control == old(control) && blocks == old(blocks) && open == old(open)
      ensures first == |AllLocals(params, old(history))|
      ensures AllLocals(params, history) == AllLocals(params, old(history)) + Repeat(t, count)
    {
      LastRunFits(localRuns);
      first := paramCount + numLocals;
      LogDeclare(StartEnv(), history, t, count);
      RecordLocals(t, count);
    }

    // The state changes of a declaration, before what they mean is looked at.
    method RecordLocals(t: ValType, count: u32)
      requires validate ==> v.Valid() && v.decls == decls && v.funcResults == results
      requires RunFits(localRuns, t, count) && LocalsKept() && HandlesKept()
      modifies `localRuns, `numLocals, `history, v
      ensures HandlesKept()
      ensures LocalsKept() && AllLocals(params, history) == AllLocals(params, old(history)) + Repeat(t, count)
      ensures localRuns == AddRun(old(localRuns), t, count) && numLocals == old(numLocals) + count
      ensures history == old(history) + [Declare(t, count)]
      ensures validate ==>
                && v.Valid() && v.decls == decls && v.funcResults == results
                && v.locals == old(v.locals) + Repeat(t, count) && v.Frames() == old(v.Frames())
    {
      LeavesOpenDeclare(history, blocks, t, count);
      RunsGrow(params, localRuns, history, t, count);
      MoreLocals(params, history, t, count);
      NoteLocals(t, count);
      CheckLocals(t, count);
    }

    method NoteLocals(t: ValType, count: u32)
      requires RunFits(localRuns, t, count)
      modifies `localRuns, `numLocals, `history
      ensures localRuns == AddRun(old(localRuns), t, count) && numLocals == old(numLocals) + count
      ensures history == old(history) + [Declare(t, count)]
    {
      ExtendRuns(t, count);
      numLocals := numLocals + count;
      history := history + [Declare(t, count)];
    }

    method ExtendRuns(t: ValType, count: u32)
      requires RunFits(localRuns, t, count)
      modifies `localRuns
      ensures localRuns == AddRun(old(localRuns), t, count)
    {
      if localRuns != [] && localRuns[|localRuns| - 1].t == t {
        localRuns := localRuns[..|localRuns| - 1] + [LocalRun(t, localRuns[|localRuns| - 1].count + count)];
      } else {
        localRuns := localRuns + [LocalRun(t, count)];
      }
    }

    /* Control frames. */

    method CheckStart(kind: FrameKind, bt: BlockType) returns (r: Checked<()>)
      requires Valid() && (validate && bt.Indexed? ==> bt.idx < |decls.types|)
      modifies v
      ensures r.Accepted? <==> old(Verdict(Start(kind, bt)))
      ensures r.Accepted? ==> Checks(Start(kind, bt))
    {
      if validate {
        var _ :- v.OnCtrlStart(kind, bt);
      }
      return Accepted(());
    }

    // The new handle holds the depth of its block and, for the proof, the call that opened it.
    method PushFrame(kind: FrameKind, bt: BlockType) returns (r: Checked<ControlFrame>)
      requires Valid() && |control| < 0xFFFF_FFFE
      requires validate && bt.Indexed? ==> bt.idx < |decls.types|
      modifies Repr()
      ensures r.Accepted? <==> old(Verdict(Start(kind, bt)))
      ensures r.Accepted? ==>
                && Logged(Emit(Start(kind, bt))) && control == old(control) + [kind] && localRuns == old(localRuns)
                && open == old(open) + [r.value]
      ensures r.Accepted? ==>
                && fresh(r.value) && r.value.live && r.value.owner == this && r.value.depth == |old(control)|
                && r.value.opening == Opening(|EventsOf(old(history))|, kind, bt)
    {
      LogEmit(StartEnv(), history, localRuns, Start(kind, bt));
      LeavesOpenEmit(history, blocks, Start(kind, bt));
      var _ :- CheckStart(kind, bt);
      WriteStart(code, kind, bt);
      var frame := OpenFrame(kind, bt);
      return Accepted(frame);
    }

    // The state changes of a start, before what they mean is looked at.
    method OpenFrame(kind: FrameKind, bt: BlockType) returns (frame: ControlFrame)
      requires Paired() && |control| < 0xFFFF_FFFE
      modifies `control, `history, `blocks, `open
      ensures Paired()
      ensures control == old(control) + [kind] && history == old(history) + [Emit(Start(kind, bt))]
      ensures blocks == Nest(old(blocks), |EventsOf(old(history))|, Start(kind, bt)) && open == old(open) + [frame]
      ensures fresh(frame) && frame.live && frame.owner == this && frame.depth == |old(control)|
      ensures frame.opening == Opening(|EventsOf(old(history))|, kind, bt)
    {
      var depth := |control|;
      control := control + [kind];
      ghost var opening := Opening(|EventsOf(history)|, kind, bt);
      history := history + [Emit(Start(kind, bt))];
      frame := new ControlFrame(this, depth, opening);
      blocks, open := blocks + [opening], open + [frame];
    }

    method CheckEnd() returns (r: Checked<()>)
      requires Valid() && control != []
      modifies v
      ensures r.Accepted? <==> old(Verdict(End))
      ensures r.Accepted? ==> Checks(End)
    {
      if validate {
        FramesMirror();
        var _ :- v.OnEnd();
      }
      return Accepted(());
    }

    method FrameEnd(depth: nat) returns (r: Checked<()>)
      requires Valid() && depth + 1 == |control|
      modifies Repr()
      ensures r.Accepted? <==> old(Verdict(End))
      ensures r.Accepted? ==>
                && Logged(Emit(End)) && control == old(control)[..depth] && open == old(open)[..depth]
                && localRuns == old(localRuns)
    {
      LogEmit(StartEnv(), history, localRuns, End);
      LeavesOpenEmit(history, blocks, End);
      var _ :- CheckEnd();
      CloseFrame();
      return Accepted(());
    }

    // The state changes of an end, before what they mean is looked at.
    method CloseFrame()
      requires code.Valid() && control != [] && Paired()
      modifies `control, `history, `blocks, `open, code, code.data
      ensures Paired()
      ensures code.Appended(EncEvent(End)) && control == old(control)[..|old(control)| - 1]
      ensures history == old(history) + [Emit(End)]
      ensures blocks == Nest(old(blocks), |EventsOf(old(history))|, End) && open == old(open)[..|old(open)| - 1]
    {
      code.PutU8(0x0B);
      control := control[..|control| - 1];
      history := history + [Emit(End)];
      blocks, open := blocks[..|blocks| - 1], open[..|open| - 1];
    }

    method CheckElse() returns (r: Checked<()>)
      requires Valid() && control != []
      modifies v
      ensures r.Accepted? <==> old(Verdict(Else))
      ensures r.Accepted? ==> Checks(Else)
    {
      if validate {
        var _ :- v.OnElse();
      }
      return Accepted(());
    }

    method FrameElse(depth: nat) returns (r: Checked<()>)
      requires Valid() && depth + 1 == |control| && control[depth] == KIf
      modifies Repr()
      ensures r.Accepted? <==> old(Verdict(Else))
      ensures r.Accepted? ==> Logged(Emit(Else)) && Stays()
    {
      LogEmit(StartEnv(), history, localRuns, Else);
      LeavesOpenEmit(history, blocks, Else);
      var _ :- CheckElse();
      code.PutU8(0x05);
      history := history + [Emit(Else)];
      return Accepted(());
    }

    // How many blocks out the handle's block is, in the library's 32 bits. The library does not look at whether
    // the block is still open: the depth of a handle that outlived it means whatever block is open there now,
    // or none.
    function RelDepth(f: ControlFrame): (rel: u32)
      requires |control| < 0xFFFF_FFFF
      reads this
      ensures f.depth < |control| ==> |control| - 1 - rel == f.depth
      ensures f.depth >= |control| ==> rel >= |control| && (f.depth < 0xFFFF_FFFF ==> rel > |control|)
      ensures HandlesKept() && Holds(f) ==> rel < |blocks| && blocks[|blocks| - 1 - rel] == f.opening
    {
      if f.depth < |control| then |control| - 1 - f.depth else |control| - 1 - f.depth + 0x1_0000_0000
    }

    // A branch to the handle means the block open at its depth: that block is the one its relative depth finds
    // in the log, and the validator finds that block's label. If the handle's block is open, it is that one. If
    // no block is open there, the validator finds no label.
    ghost predicate Means(f: ControlFrame)
      requires |control| < 0xFFFF_FFFF
      reads this, v
    {
      && (f.depth < |control| ==>
            && f.depth < |blocks| && Targets(EventsOf(history), RelDepth(f), blocks[f.depth])
            && (validate ==> FindsLabel(blocks[f.depth], RelDepth(f))))
      && (Holds(f) ==> f.depth < |blocks| && blocks[f.depth] == f.opening)
      && (validate && |control| <= f.depth < 0xFFFF_FFFF ==> RelDepth(f) >= |LabelsOf(v.Frames())|)
    }

    lemma HandleMeans(f: ControlFrame)
      requires Valid()
      ensures Means(f)
    {
      if f.depth < |control| {
        LogMeansBlock(history, blocks, RelDepth(f));
      }
      if validate {
        DepthFinds(f);
      }
    }

    lemma DepthFinds(f: ControlFrame)
      requires Valid() && validate
      ensures f.depth < |control| ==> FindsLabel(blocks[f.depth], RelDepth(f))
      ensures |control| <= f.depth < 0xFFFF_FFFF ==> RelDepth(f) >= |LabelsOf(v.Frames())|
    {
      FramesAreBlocks(StartEnv(), history, blocks, v.GetEnv(), v.Frames());
      LabelsAt(v.Frames());
      if f.depth < |control| {
        LabelMeansBlock(v.GetEnv(), v.Frames(), blocks, RelDepth(f));
      }
    }

    // While the block of a handle is open, a branch to the handle means the block it opened.
    lemma HandleMeansBlock(f: ControlFrame)
      requires Valid() && Holds(f)
      ensures Targets(EventsOf(history), RelDepth(f), f.opening)
      ensures f.opening.at < |EventsOf(history)|
      ensures EventsOf(history)[f.opening.at] == Start(f.opening.kind, f.opening.bt)
      ensures validate ==> FindsLabel(f.opening, RelDepth(f))
    {
      HandleMeans(f);
      LogMeansBlock(history, blocks, RelDepth(f));
    }

    // The label the validator finds at depth rel is that of the block.
    ghost predicate FindsLabel(o: Opening, rel: nat)
      reads this, v
    {
      && rel < |LabelsOf(v.Frames())| && Expand(v.GetEnv(), o.bt).Some?
      && LabelAt(LabelsOf(v.Frames()), rel) == LabelOf(o.kind, Expand(v.GetEnv(), o.bt).value)
    }

    method Br(target: ControlFrame) returns (r: Checked<()>)
      requires Valid()
      modifies Repr()
      ensures old(Means(target))
      ensures var ev := Do(Syntax.Op.Br(old(RelDepth(target))));
        && (r.Accepted? <==> old(Verdict(ev)))
        && (r.Accepted? ==> Logged(Emit(ev)) && Stays())
    {
      HandleMeans(target);
      r := Instruction(Syntax.Op.Br(RelDepth(target)));
    }

    method BrIf(target: ControlFrame) returns (r: Checked<()>)
      requires Valid()
      modifies Repr()
      ensures old(Means(target))
      ensures var ev := Do(Syntax.Op.BrIf(old(RelDepth(target))));
        && (r.Accepted? <==> old(Verdict(ev)))
        && (r.Accepted? ==> Logged(Emit(ev)) && Stays())
    {
      HandleMeans(target);
      r := Instruction(Syntax.Op.BrIf(RelDepth(target)));
    }

    ghost function RelDepths(fs: seq<ControlFrame>): (r: seq<u32>)
      requires |control| < 0xFFFF_FFFF
      reads this
      ensures |r| == |fs| && forall k | 0 <= k < |fs| :: r[k] == RelDepth(fs[k])
    {
      if fs == [] then [] else RelDepths(fs[..|fs| - 1]) + [RelDepth(fs[|fs| - 1])]
    }

    ghost predicate AllMean(fs: seq<ControlFrame>)
      requires |control| < 0xFFFF_FFFF
      reads this, v
    {
      forall k | 0 <= k < |fs| :: Means(fs[k])
    }

    lemma HandlesMean(fs: seq<ControlFrame>)
      requires Valid()
      ensures AllMean(fs)
    {
      forall k | 0 <= k < |fs|
        ensures Means(fs[k])
      {
        HandleMeans(fs[k]);
      }
    }

    method BrTable(targets: seq<ControlFrame>, default: ControlFrame) returns (r: Checked<()>)
      requires Valid() && IsU64(|targets|)
      modifies Repr()
      ensures old(AllMean(targets + [default]))
      ensures var ev := Do(Syntax.Op.BrTable(old(RelDepths(targets)), old(RelDepth(default))));
        && (r.Accepted? <==> old(Verdict(ev)))
        && (r.Accepted? ==> Logged(Emit(ev)) && Stays())
    {
      HandlesMean(targets + [default]);
      var rels := Depths(targets);
      r := Instruction(Syntax.Op.BrTable(rels, RelDepth(default)));
    }

    method Depths(targets: seq<ControlFrame>) returns (rels: seq<u32>)
      requires |control| < 0xFFFF_FFFF
      ensures rels == RelDepths(targets)
    {
      rels := [];
      for i := 0 to |targets|
        invariant rels == RelDepths(targets[..i]) && |rels| == i
      {
        assert targets[..i + 1][..i] == targets[..i];
        rels := rels + [RelDepth(targets[i])];
      }
      assert targets[..|targets|] == targets;
    }

    /* The end of a body. */

    ghost function FullEnv(): Env
      reads this
    {
      decls.In(AllLocals(params, history), results)
    }

    method CheckFinish() returns (r: Checked<()>)
      requires Valid()
      modifies v
      ensures r.Accepted? <==> (validate ==> old(Accepts(FullEnv(), EventsOf(history))))
    {
      if validate {
        LocalsOnTheWay(StartEnv(), Initial(StartEnv()), history);
        assert Initial(FullEnv()) == Initial(StartEnv());
        var _ :- v.OnFunctionEnd();
      }
      return Accepted(());
    }

    method WriteLocals(runs: seq<LocalRun>) returns (locals: CodeBuffer)
      requires |runs| < 0x1_0000_0000
      ensures fresh(locals) && fresh(locals.data) && locals.Valid() && locals.Contents() == EncLocals(runs)
    {
      locals := new CodeBuffer();
      locals.PutULEB(|runs|);
      for i := 0 to |runs|
        invariant locals.Valid() && fresh(locals.data)
        invariant locals.Contents() == ULEB(|runs|) + EncAll(EncRun, runs[..i])
      {
        var run := runs[i];
        assert runs[..i + 1][..i] == runs[..i];
        Assoc(ULEB(|runs|), EncAll(EncRun, runs[..i]), ULEB(run.count) + [TypeByte(run.t)]);
        Assoc(locals.Contents(), ULEB(run.count), [TypeByte(run.t)]);
        locals.PutULEB(run.count);
        locals.PutU8(TypeByte(run.t));
      }
      assert runs[..|runs|] == runs;
    }

    // Without validation any log is let through; with it, exactly the logs whose calls spell a
    // typable body. The bytes depend on the calls alone, so both policies give the same ones.
    method Finish() returns (r: Checked<FunctionBody>)
      requires Valid() && control == [] && |localRuns| < 0x1_0000_0000
      modifies Repr()
      ensures r.Accepted? <==> (validate ==> old(Accepts(FullEnv(), EventsOf(history))))
      ensures |RunsOf(old(history))| < 0x1_0000_0000
      ensures r.Accepted? ==>
                && fresh(r.value) && r.value.Valid()
                && r.value.LocalDecls() == EncLocals(RunsOf(old(history)))
                && r.value.Code() == EncEvents(old(EventsOf(history))) + [0x0B]
      ensures r.Accepted? ==> params == old(params) && results == old(results) && decls == old(decls)
      ensures r.Accepted? ==> fresh(code) && fresh(code.data) && code.Valid() && paramCount == |params|
    {
      var _ :- CheckFinish();
      code.PutU8(0x0B);
      var locals := WriteLocals(localRuns);
      var body := new FunctionBody(locals, code);
      code := new CodeBuffer();
      return Accepted(body);
    }

    // Drops the body and starts over with the same signature, keeping the buffer's allocation.
    method Reset()
      requires code.Valid() && DeclsOk(decls) && paramCount == |params| < 0x1_0000_0000
      modifies this, code, v
      ensures Valid() && history == [] && localRuns == [] && control == [] && open == []
      ensures decls == old(decls) && params == old(params) && results == old(results)
      ensures code == old(code) && v == old(v) && code.data == old(code.data) && code.capacity == old(code.capacity)
    {
      Clear();
      EmptyLog(params);
      if validate {
        v.Init(decls, params, results);
      }
    }

    method Clear()
      requires code.Valid()
      modifies `localRuns, `numLocals, `control, `history, `blocks, `open, code
      ensures code.Valid() && code.Contents() == [] && code.data == old(code.data) && code.capacity == old(code.capacity)
      ensures localRuns == [] && numLocals == 0 && control == [] && history == [] && blocks == [] && open == []
    {
      code.Reset();
      localRuns, numLocals, control, history, blocks, open := [], 0, [], [], [], [];
    }

    method SetSignature(params: seq<ValType>, results: seq<ValType>)
      requires code.Valid() && DeclsOk(decls) && |params| < 0x1_0000_0000
      modifies this, code, v
      ensures Valid() && history == [] && this.params == params && this.results == results
      ensures decls == old(decls) && code == old(code) && v == old(v) && code.data == old(code.data)
    {
      this.params, this.results, paramCount := params, results, |params|;
      Reset();
    }
  }

  // A handle on one block, loop or if.
  class ControlFrame {
    const owner: FunctionEmitter
    const depth: u32
    var live: bool

    // The call that opened the block.
    ghost const opening: Opening

    constructor (owner: FunctionEmitter, depth: u32, ghost opening: Opening)
      ensures this.owner == owner && this.depth == depth && live && this.opening == opening
    {
      this.owner, this.depth, live := owner, depth, true;
      this.opening := opening;
    }

    method Else() returns (r: Checked<()>)
      requires live && owner.Valid() && owner.Holds(this)
      requires depth + 1 == |owner.control| && owner.control[depth] == KIf
      modifies owner.Repr()
      ensures r.Accepted? <==> old(owner.Verdict(Syntax.Event.Else))
      ensures r.Accepted? ==> owner.Logged(Emit(Syntax.Event.Else)) && owner.Stays()
    {
      r := owner.FrameElse(depth);
    }

    // Closing twice is closing once.
    method End() returns (r: Checked<()>)
      requires owner.Valid() && (live ==> owner.Holds(this) && depth + 1 == |owner.control|)
      modifies this, owner.Repr()
      ensures !live
      ensures old(live) ==>
                && (r.Accepted? <==> old(owner.Verdict(Syntax.Event.End)))
                && (r.Accepted? ==>
                      && owner.Logged(Emit(Syntax.Event.End)) && owner.control == old(owner.control)[..depth]
                      && owner.open == old(owner.open)[..depth])
      ensures !old(live) ==> r.Accepted? && owner.Valid() && owner.history == old(owner.history)
    {
      if live {
        live := false;
        r := owner.FrameEnd(depth);
      } else {
        r := Accepted(());
      }
    }

    method Detach()
      modifies this
      ensures !live
    {
      live := false;
    }
  }

  // The finished body: declarations and code, each in its own buffer.
  class FunctionBody {
    const localDecls: CodeBuffer
    const code: CodeBuffer

    ghost predicate Valid()
      reads this, localDecls, code
    {
      localDecls.Valid() && code.Valid()
    }

    constructor (localDecls: CodeBuffer, code: CodeBuffer)
      ensures this.localDecls == localDecls && this.code == code
    {
      this.localDecls, this.code := localDecls, code;
    }

    function LocalDecls(): seq<byte>
      requires Valid()
      reads this, localDecls, localDecls.data, code
    {
      localDecls.Contents()
    }

    function Code(): seq<byte>
      requires Valid()
      reads this, localDecls, code, code.data
    {
      code.Contents()
    }
  }

  // The two buffers of a finished body are the encoding of its runs and its tree, and decode to them.
  lemma FinishedBodyDecodes(table: Table, runs: seq<LocalRun>, evs: seq<Event>, c: Syntax.Code, rest: seq<byte>)
    requires TableOk(table) && CodeOk(table, c) && IsU32(|runs|) && IsU32(|ExpandRuns(runs)|) && Flatten(c) == evs
    ensures EncLocals(runs) + (EncEvents(evs) + [0x0B]) == EncBody(FuncBody(runs, c))
    ensures DecBody(table, EncLocals(runs) + (EncEvents(evs) + [0x0B]) + rest) == Some((FuncBody(runs, c), rest))
  {
    ExpandedLength(runs);
    BodyRoundTrip(table, FuncBody(runs, c), rest);
  }
}
