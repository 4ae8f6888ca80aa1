/**
 Acceptance of flat call sequences: every accepted sequence spells a body, and a body is accepted
 exactly when it is declaratively typable. Also the invariants every run of the machine keeps.
 */
module Acceptance {
  import opened Ints
  import opened Syntax
  import opened Typing
  import opened Machine
  import opened Exactness
  import opened Soundness

  // A frame still being emitted: the then arm once `else` was seen, and the arm in progress.
  datatype Partial = Partial(kind: FrameKind, bt: BlockType, thn: Option<Code>, arm: Code)

  function Prefix(p: Partial): seq<Event> {
    [Start(p.kind, p.bt)] +
    (match p.thn case None => Flatten(p.arm) case Some(thn) => Flatten(thn) + [Else] + Flatten(p.arm))
  }

  // The calls made so far: the finished part of the body, then each open frame.
  function Emitted(base: Code, ps: seq<Partial>): seq<Event> {
    if ps == [] then Flatten(base) else Emitted(base, ps[..|ps| - 1]) + Prefix(ps[|ps| - 1])
  }

  predicate Tracks(ps: seq<Partial>, fs: seq<Frame>) {
    && |fs| == |ps| + 1
    && fs[0].kind == KFunc
    && forall k | 0 <= k < |ps| ::
         && fs[k + 1].kind == ps[k].kind
         && (fs[k + 1].elseSeen <==> ps[k].thn.Some?)
         && (ps[k].thn.Some? ==> ps[k].kind == KIf)
  }

  // Appending a finished instruction to the innermost open arm.
  lemma Grow(base: Code, ps: seq<Partial>, fs: seq<Frame>, i: Instr) returns (base': Code, ps': seq<Partial>)
    requires Tracks(ps, fs)
    ensures Tracks(ps', fs) && Emitted(base', ps') == Emitted(base, ps) + FlattenInstr(i)
  {
    if ps == [] {
      base', ps' := Snoc(base, i), [];
    } else {
      var p := ps[|ps| - 1];
      var p' := p.(arm := Snoc(p.arm, i));
      base', ps' := base, ps[..|ps| - 1] + [p'];
      assert Prefix(p') == Prefix(p) + FlattenInstr(i);
      assert ps'[..|ps'| - 1] == ps[..|ps| - 1];
    }
  }

  // Closing the innermost open frame turns it into an instruction.
  function Finished(p: Partial): Instr {
    match p.thn case None => Scope(p.kind, p.bt, p.arm) case Some(thn) => IfElse(p.bt, thn, p.arm)
  }

  // Opening a frame leaves the kinds of the others alone.
  predicate Opens(fs: seq<Frame>, fs': seq<Frame>, kind: FrameKind) {
    && |fs'| == |fs| + 1 && fs'[|fs|].kind == kind && !fs'[|fs|].elseSeen
    && forall k | 0 <= k < |fs| :: fs'[k].kind == fs[k].kind && fs'[k].elseSeen == fs[k].elseSeen
  }

  lemma StartOpens(env: Env, fs: seq<Frame>, kind: FrameKind, bt: BlockType)
    requires fs != [] && StepStart(env, fs, kind, bt).Some?
    ensures Opens(fs, StepStart(env, fs, kind, bt).value, kind)
  {}

  lemma TracksStart(base: Code, ps: seq<Partial>, fs: seq<Frame>, fs': seq<Frame>, kind: FrameKind, bt: BlockType)
    returns (ps': seq<Partial>)
    requires Tracks(ps, fs) && Opens(fs, fs', kind)
    ensures Tracks(ps', fs') && Emitted(base, ps') == Emitted(base, ps) + [Start(kind, bt)]
  {
    ps' := ps + [Partial(kind, bt, None, Empty)];
    OpenEmits(base, ps, kind, bt);
  }

  lemma OpenEmits(base: Code, ps: seq<Partial>, kind: FrameKind, bt: BlockType)
    ensures Emitted(base, ps + [Partial(kind, bt, None, Empty)]) == Emitted(base, ps) + [Start(kind, bt)]
  {
    var p := Partial(kind, bt, None, Empty);
    assert Prefix(p) == [Start(kind, bt)];
    assert (ps + [p])[..|ps|] == ps;
  }

  lemma TracksElse(base: Code, ps: seq<Partial>, fs: seq<Frame>) returns (ps': seq<Partial>)
    requires Tracks(ps, fs) && StepElse(fs).Some?
    ensures Tracks(ps', StepElse(fs).value) && Emitted(base, ps') == Emitted(base, ps) + [Else]
  {
    var p := ps[|ps| - 1];
    var p' := p.(thn := Some(p.arm), arm := Empty);
    ps' := ps[..|ps| - 1] + [p'];
    assert Prefix(p') == Prefix(p) + [Else];
    assert ps'[..|ps'| - 1] == ps[..|ps| - 1];
  }

  lemma TracksEnd(base: Code, ps: seq<Partial>, fs: seq<Frame>) returns (base': Code, ps': seq<Partial>)
    requires Tracks(ps, fs) && StepEnd(fs).Some?
    ensures Tracks(ps', StepEnd(fs).value) && Emitted(base', ps') == Emitted(base, ps) + [End]
  {
    var p := ps[|ps| - 1];
    assert FlattenInstr(Finished(p)) == Prefix(p) + [End];
    assert Tracks(ps[..|ps| - 1], Outer(fs));
    base', ps' := Grow(base, ps[..|ps| - 1], Outer(fs), Finished(p));
  }

  ghost predicate Takes(env: Env, fs: seq<Frame>, ev: Event, fs': seq<Frame>) {
    |fs| >= 1 && forall e | e == ev :: Step(env, fs, e) == Some(fs')
  }

  ghost predicate Reaches(env: Env, evs: seq<Event>, fs: seq<Frame>) {
    forall es | es == evs :: Run(env, Initial(env), es) == Some(fs)
  }

  lemma TracksStep(env: Env, base: Code, ps: seq<Partial>, fs: seq<Frame>, ev: Event, fs': seq<Frame>)
    returns (base': Code, ps': seq<Partial>)
    requires Tracks(ps, fs) && Takes(env, fs, ev, fs')
    ensures Tracks(ps', fs') && Emitted(base', ps') == Emitted(base, ps) + [ev]
  {
    assert Step(env, fs, ev) == Some(fs');
    base' := base;
    match ev
    case Do(op) => base', ps' := Grow(base, ps, fs, Plain(op));
    case Start(kind, bt) =>
      StartOpens(env, fs, kind, bt);
      ps' := TracksStart(base, ps, fs, StepStart(env, fs, kind, bt).value, kind, bt);
    case Else => ps' := TracksElse(base, ps, fs);
    case End => base', ps' := TracksEnd(base, ps, fs);
  }

  lemma LastStep(env: Env, evs: seq<Event>, fs': seq<Frame>) returns (fs: seq<Frame>)
    requires evs != [] && Reaches(env, evs, fs')
    ensures Reaches(env, evs[..|evs| - 1], fs) && Takes(env, fs, evs[|evs| - 1], fs')
  {
    assert Run(env, Initial(env), evs) == Some(fs');
    fs := Run(env, Initial(env), evs[..|evs| - 1]).value;
  }

  lemma {:induction false} TracksRun(env: Env, evs: seq<Event>, fs: seq<Frame>) returns (base: Code, ps: seq<Partial>)
    requires Reaches(env, evs, fs)
    ensures Tracks(ps, fs) && Emitted(base, ps) == evs
    decreases |evs|
  {
    if evs == [] {
      assert Run(env, Initial(env), evs) == Some(fs);
      base, ps := Empty, [];
    } else {
      var mid := LastStep(env, evs, fs);
      base, ps := TracksRun(env, evs[..|evs| - 1], mid);
      base, ps := TracksStep(env, base, ps, mid, evs[|evs| - 1], fs);
      assert evs[..|evs| - 1] + [evs[|evs| - 1]] == evs;
    }
  }

  // Every accepted sequence of calls spells a structured body.
  lemma AcceptedIsBody(env: Env, evs: seq<Event>) returns (c: Code)
    requires Accepts(env, evs)
    ensures Flatten(c) == evs
  {
    var ps;
    c, ps := TracksRun(env, evs, Run(env, Initial(env), evs).value);
    assert ps == [];
  }

  lemma InitialFacts(env: Env)
    ensures LabelsOf(Initial(env)) == [env.results]
    ensures forall s :: Rep(Top(Initial(env)).seg, s) <==> s == []
  {
    assert LabelsOf(Outer(Initial(env))) == [];
  }

  lemma AcceptedIsTyped(env: Env, c: Code)
    requires Accepts(env, Flatten(c))
    ensures TypedBody(false, env, c)
  {
    var fs := Initial(env);
    var r := Run(env, fs, Flatten(c)).value;
    InitialFacts(env);
    var _ := CodeSound(env, fs, c, Fill(Top(r).seg));
    ClosesRep(Top(r));
    var s1 := CodeSound(env, fs, c, env.results);
    assert s1 == [];
  }

  lemma TypedIsAccepted(env: Env, c: Code)
    requires TypedBody(false, env, c)
    ensures Accepts(env, Flatten(c))
  {
    var fs := Initial(env);
    InitialFacts(env);
    CodeComplete(env, fs, c, [], env.results);
    ClosesRep(Top(Run(env, fs, Flatten(c)).value));
  }

  // Soundness and completeness: the calls that build a body are accepted exactly when the body is
  // typable from nothing to the declared results.
  lemma AcceptsIffTyped(env: Env, c: Code)
    ensures Accepts(env, Flatten(c)) <==> TypedBody(false, env, c)
  {
    if Accepts(env, Flatten(c)) {
      AcceptedIsTyped(env, c);
    }
    if TypedBody(false, env, c) {
      TypedIsAccepted(env, c);
    }
  }

  // Asking in addition that all labels of a table carry the same types asks exactly for uniform tables.
  lemma AcceptsIffStrictlyTyped(env: Env, c: Code)
    ensures TypedBody(true, env, c) <==> Accepts(env, Flatten(c)) && Uniform(env, [env.results], c)
  {
    AcceptsIffTyped(env, c);
    StrictIffUniform(env, [env.results], c, [], env.results);
  }

  // All call sequences at once.
  lemma AcceptsIffTypable(env: Env, evs: seq<Event>)
    ensures Accepts(env, evs) <==> exists c :: Flatten(c) == evs && TypedBody(false, env, c)
  {
    if Accepts(env, evs) {
      var c := AcceptedIsBody(env, evs);
      AcceptsIffTyped(env, c);
    }
    forall c | Flatten(c) == evs && TypedBody(false, env, c)
      ensures Accepts(env, evs)
    {
      AcceptsIffTyped(env, c);
    }
  }

  /* Invariants of every run. */

  // Only a frame marked unreachable holds unknowns; the body's own frame is at the bottom.
  ghost predicate MachineInv(env: Env, fs: seq<Frame>) {
    && |fs| >= 1
    && fs[0].kind == KFunc && fs[0].sig == FuncType([], env.results)
    && (forall k | 1 <= k < |fs| :: fs[k].kind != KFunc)
    && (forall k | 0 <= k < |fs| :: Settled(fs[k].seg))
    && (forall k | 0 <= k < |fs| :: fs[k].elseSeen ==> fs[k].kind == KIf)
  }

  ghost predicate Settled(g: Segment) {
    !g.poly ==> forall k | 0 <= k < |g.slots| :: g.slots[k] != Unknown
  }

  lemma {:induction false} PopListSettled(g: Segment, ts: seq<ValType>)
    requires Settled(g) && PopList(g, ts).Some?
    ensures Settled(PopList(g, ts).value) && PopList(g, ts).value.poly == g.poly
    decreases |ts|
  {
    if ts != [] {
      var n := |ts| - 1;
      PopListSettled(PopExpect(g, Known(ts[n])).value.1, ts[..n]);
    }
  }

  lemma PushSettled(g: Segment, ts: seq<ValType>)
    requires Settled(g)
    ensures Settled(PushList(g, ts))
  {}

  lemma EffectSettled(g: Segment, eff: Effect)
    requires Settled(g) && ApplyEffect(g, eff).Some?
    ensures Settled(ApplyEffect(g, eff).value)
  {
    match eff
    case Arrow(pops, pushes) =>
      PopListSettled(g, pops);
      PushSettled(PopList(g, pops).value, pushes);
    case _ =>
  }

  lemma SegInv(env: Env, fs: seq<Frame>, g: Segment)
    requires MachineInv(env, fs) && Settled(g)
    ensures MachineInv(env, WithTop(fs, g))
  {}

  lemma StartInv(env: Env, fs: seq<Frame>, kind: FrameKind, bt: BlockType)
    requires MachineInv(env, fs) && StepStart(env, fs, kind, bt).Some?
    ensures MachineInv(env, StepStart(env, fs, kind, bt).value)
  {
    var ft := Expand(env, bt).value;
    PopListSettled(Top(fs).seg, Entry(kind, ft));
    var g := PopList(Top(fs).seg, Entry(kind, ft)).value;
    SegInv(env, fs, g);
    OpenInv(env, WithTop(fs, g), Open(kind, false, ft));
  }

  lemma OpenInv(env: Env, fs: seq<Frame>, f: Frame)
    requires MachineInv(env, fs) && f.kind != KFunc && !f.elseSeen && Settled(f.seg)
    ensures MachineInv(env, fs + [f])
  {}

  lemma ElseInv(env: Env, fs: seq<Frame>)
    requires MachineInv(env, fs) && StepElse(fs).Some?
    ensures MachineInv(env, StepElse(fs).value)
  {}

  lemma EndInv(env: Env, fs: seq<Frame>)
    requires MachineInv(env, fs) && StepEnd(fs).Some?
    ensures MachineInv(env, StepEnd(fs).value)
  {
    var outer := Outer(fs);
    assert MachineInv(env, outer);
    PushSettled(Top(outer).seg, Top(fs).sig.results);
    SegInv(env, outer, PushList(Top(outer).seg, Top(fs).sig.results));
  }

  lemma StepInv(env: Env, fs: seq<Frame>, ev: Event)
    requires MachineInv(env, fs) && Step(env, fs, ev).Some?
    ensures MachineInv(env, Step(env, fs, ev).value)
  {
    match ev
    case Do(op) => EffectSettled(Top(fs).seg, EffectOf(env, LabelsOf(fs), op));
    case Start(kind, bt) => StartInv(env, fs, kind, bt);
    case Else => ElseInv(env, fs);
    case End => EndInv(env, fs);
  }

  lemma {:induction false} RunInv(env: Env, evs: seq<Event>)
    requires Run(env, Initial(env), evs).Some?
    ensures MachineInv(env, Run(env, Initial(env), evs).value)
    decreases |evs|
  {
    if evs != [] {
      RunInv(env, evs[..|evs| - 1]);
      StepInv(env, Run(env, Initial(env), evs[..|evs| - 1]).value, evs[|evs| - 1]);
    }
  }

  // One call never touches anything below the frame it works in.
  lemma StepKeepsOuter(env: Env, fs: seq<Frame>, ev: Event, d: nat)
    requires |fs| >= d >= 1 && Step(env, fs, ev).Some? && |Step(env, fs, ev).value| >= d
    ensures Step(env, fs, ev).value[..d - 1] == fs[..d - 1]
  {}

  // Every state of the run has at least d frames.
  predicate StaysAbove(env: Env, fs: seq<Frame>, evs: seq<Event>, d: nat)
    requires |fs| >= 1
    decreases |evs|
  {
    && Run(env, fs, evs).Some? && |Run(env, fs, evs).value| >= d
    && (evs != [] ==> StaysAbove(env, fs, evs[..|evs| - 1], d))
  }

  // While a run stays at depth d or deeper, no operand below frame d - 1 changes.
  lemma {:induction false} RunKeepsOuter(env: Env, fs: seq<Frame>, evs: seq<Event>, d: nat)
    requires |fs| >= d >= 1 && StaysAbove(env, fs, evs, d)
    ensures Run(env, fs, evs).value[..d - 1] == fs[..d - 1]
    decreases |evs|
  {
    if evs != [] {
      RunKeepsOuter(env, fs, evs[..|evs| - 1], d);
      StepKeepsOuter(env, Run(env, fs, evs[..|evs| - 1]).value, evs[|evs| - 1], d);
    }
  }

  /* Locals may be declared between instructions. */

  datatype Call = Emit(ev: Event) | Declare(t: ValType, count: nat)

  function Repeat<T>(t: T, n: nat): (r: seq<T>)
    ensures |r| == n && forall k | 0 <= k < n :: r[k] == t
  {
    if n == 0 then [] else Repeat(t, n - 1) + [t]
  }

  function RunCalls(env: Env, fs: seq<Frame>, calls: seq<Call>): (r: Option<(Env, seq<Frame>)>)
    requires |fs| >= 1
    ensures r.Some? ==> |r.value.1| >= 1
    decreases |calls|
  {
    if calls == [] then Some((env, fs))
    else
      match RunCalls(env, fs, calls[..|calls| - 1])
      case None => None
      case Some((e, mid)) =>
        match calls[|calls| - 1]
        case Declare(t, n) => Some((e.(locals := e.locals + Repeat(t, n)), mid))
        case Emit(ev) => match Step(e, mid, ev) case None => None case Some(next) => Some((e, next))
  }

  function EventsOf(calls: seq<Call>): seq<Event> {
    if calls == [] then []
    else
      EventsOf(calls[..|calls| - 1]) + (match calls[|calls| - 1] case Emit(ev) => [ev] case _ => [])
  }

  function AllLocals(locals: seq<ValType>, calls: seq<Call>): seq<ValType> {
    if calls == [] then locals
    else
      AllLocals(locals, calls[..|calls| - 1]) +
      (match calls[|calls| - 1] case Declare(t, n) => Repeat(t, n) case _ => [])
  }

  predicate UsesLocal(ev: Event, n: nat) {
    ev.Do? && (ev.op.LocalGet? || ev.op.LocalSet? || ev.op.LocalTee?) && ev.op.local >= n
  }

  // No instruction names a local before it is declared.
  predicate InTime(locals: seq<ValType>, calls: seq<Call>) {
    calls == [] ||
    (InTime(locals, calls[..|calls| - 1]) &&
     (calls[|calls| - 1].Emit? ==>
        !UsesLocal(calls[|calls| - 1].ev, |AllLocals(locals, calls[..|calls| - 1])|)))
  }

  lemma StepMoreLocals(env: Env, more: seq<ValType>, fs: seq<Frame>, ev: Event)
    requires |fs| >= 1
    ensures var env' := env.(locals := env.locals + more);
      if UsesLocal(ev, |env.locals|) then Step(env, fs, ev) == None
      else Step(env, fs, ev) == Step(env', fs, ev)
  {
    match ev
    case Do(op) => EffectMoreLocals(env, more, LabelsOf(fs), op);
    case Start(_, bt) => assert Expand(env.(locals := env.locals + more), bt) == Expand(env, bt);
    case _ =>
  }

  lemma EffectMoreLocals(env: Env, more: seq<ValType>, labels: LabelStack, op: Op)
    ensures EffectOf(env, labels, op) ==
            if UsesLocal(Do(op), |env.locals|) then Reject
            else EffectOf(env.(locals := env.locals + more), labels, op)
  {}

  predicate UsesOnly(evs: seq<Event>, n: nat) {
    evs == [] || (UsesOnly(evs[..|evs| - 1], n) && !UsesLocal(evs[|evs| - 1], n))
  }

  lemma {:induction false} RunMoreLocals(env: Env, more: seq<ValType>, fs: seq<Frame>, evs: seq<Event>)
    requires |fs| >= 1
    ensures UsesOnly(evs, |env.locals|) ==>
              Run(env, fs, evs) == Run(env.(locals := env.locals + more), fs, evs)
    ensures !UsesOnly(evs, |env.locals|) ==> Run(env, fs, evs) == None
    decreases |evs|
  {
    if evs != [] {
      var init, last := evs[..|evs| - 1], evs[|evs| - 1];
      RunMoreLocals(env, more, fs, init);
      if UsesOnly(init, |env.locals|) && Run(env, fs, init).Some? {
        StepMoreLocals(env, more, Run(env, fs, init).value, last);
      }
    }
  }

  lemma {:induction false} UsesOnlyMore(evs: seq<Event>, n: nat, m: nat)
    requires UsesOnly(evs, n) && n <= m
    ensures UsesOnly(evs, m)
    decreases |evs|
  {
    if evs != [] {
      UsesOnlyMore(evs[..|evs| - 1], n, m);
    }
  }

  lemma {:induction false} InTimeUses(locals: seq<ValType>, calls: seq<Call>)
    requires InTime(locals, calls)
    ensures UsesOnly(EventsOf(calls), |AllLocals(locals, calls)|)
    decreases |calls|
  {
    if calls != [] {
      var init := calls[..|calls| - 1];
      InTimeUses(locals, init);
      UsesOnlyMore(EventsOf(init), |AllLocals(locals, init)|, |AllLocals(locals, calls)|);
      match calls[|calls| - 1]
      case Emit(ev) => assert EventsOf(calls)[..|EventsOf(calls)| - 1] == EventsOf(init);
      case Declare(_, _) => assert EventsOf(calls) == EventsOf(init);
    }
  }

  // Declaring locals on the way gives the same verdict as declaring all of them first, except that
  // a local may not be used before its declaration.
  lemma {:induction false} LocalsOnTheWay(env: Env, fs: seq<Frame>, calls: seq<Call>)
    requires |fs| >= 1
    ensures var full := env.(locals := AllLocals(env.locals, calls));
      && (RunCalls(env, fs, calls).Some? <==> Run(full, fs, EventsOf(calls)).Some? && InTime(env.locals, calls))
      && (RunCalls(env, fs, calls).Some? ==>
            RunCalls(env, fs, calls).value == (full, Run(full, fs, EventsOf(calls)).value))
    decreases |calls|
  {
    if calls != [] {
      var init, last := calls[..|calls| - 1], calls[|calls| - 1];
      var before := env.(locals := AllLocals(env.locals, init));
      LocalsOnTheWay(env, fs, init);
      match last
      case Emit(ev) =>
        assert AllLocals(env.locals, calls) == AllLocals(env.locals, init);
        RunAppend(before, fs, EventsOf(init), [ev]);
        if Run(before, fs, EventsOf(init)).Some? {
          RunOne(before, Run(before, fs, EventsOf(init)).value, ev);
          StepMoreLocals(before, [], Run(before, fs, EventsOf(init)).value, ev);
        }
      case Declare(t, n) =>
        assert EventsOf(calls) == EventsOf(init);
        RunMoreLocals(before, Repeat(t, n), fs, EventsOf(init));
        if InTime(env.locals, calls) {
          InTimeUses(env.locals, init);
        }
    }
  }
}
