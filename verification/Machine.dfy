/**
 The checking algorithm as a function on a stack of control frames, each with its own segment of
 the operand stack. The class in Validator.dfy keeps one flat stack and refines this machine.
 */
module Machine {
  import opened Ints
  import opened Syntax
  import opened Typing

  // An entry of the checked operand stack; Unknown is the library's kUnknown.
  datatype Slot = Unknown | Known(t: ValType)

  // An unknown operand serves for every type.
  predicate Fits(x: Slot, t: ValType) {
    x == Unknown || x == Known(t)
  }

  // The operands above a frame's height. A polymorphic segment may be popped below its bottom.
  datatype Segment = Segment(slots: seq<Slot>, poly: bool)

  datatype Frame = Frame(kind: Kind, elseSeen: bool, sig: FuncType, seg: Segment)

  function Label(f: Frame): seq<ValType> {
    LabelOf(f.kind, f.sig)
  }

  function LabelsOf(fs: seq<Frame>): LabelStack {
    if fs == [] then [] else LabelsOf(fs[..|fs| - 1]) + [Label(fs[|fs| - 1])]
  }

  function KnownAll(ts: seq<ValType>): (r: seq<Slot>)
    ensures |r| == |ts|
    ensures forall k | 0 <= k < |ts| :: r[k] == Known(ts[k])
  {
    if ts == [] then [] else KnownAll(ts[..|ts| - 1]) + [Known(ts[|ts| - 1])]
  }

  // A frame that control is in: exactly these operands.
  function Holding(ts: seq<ValType>): Segment {
    Segment(KnownAll(ts), false)
  }

  // Where a body starts: one frame, with nothing on it.
  const START := Segment([], false)

  predicate Compatible(a: Slot, e: Slot) {
    a == Unknown || e == Unknown || a == e
  }

  function PopAny(g: Segment): Option<(Slot, Segment)> {
    if g.slots == [] then (if g.poly then Some((Unknown, g)) else None)
    else Some((g.slots[|g.slots| - 1], g.(slots := g.slots[..|g.slots| - 1])))
  }

  function PopExpect(g: Segment, e: Slot): Option<(Slot, Segment)> {
    match PopAny(g)
    case None => None
    case Some((a, g')) => if Compatible(a, e) then Some((a, g')) else None
  }

  // Pops `ts` from its last element down to its first.
  function PopList(g: Segment, ts: seq<ValType>): Option<Segment>
    decreases |ts|
  {
    if ts == [] then Some(g)
    else
      match PopExpect(g, Known(ts[|ts| - 1]))
      case None => None
      case Some((_, g')) => PopList(g', ts[..|ts| - 1])
  }

  function Push(g: Segment, x: Slot): Segment {
    g.(slots := g.slots + [x])
  }

  function PushList(g: Segment, ts: seq<ValType>): Segment {
    g.(slots := g.slots + KnownAll(ts))
  }

  const DEAD := Segment([], true)

  function SelectSlots(g: Segment): Option<Segment> {
    match PopExpect(g, Known(I32))
    case None => None
    case Some((_, g1)) =>
      match PopAny(g1)
      case None => None
      case Some((t2, g2)) =>
        match PopExpect(g2, t2)
        case None => None
        case Some((t1, g3)) => Some(Push(g3, if t1 == Unknown then t2 else t1))
  }

  function ApplyEffect(g: Segment, eff: Effect): Option<Segment> {
    match eff
    case Reject => None
    case Arrow(pops, pushes) =>
      (match PopList(g, pops) case None => None case Some(g') => Some(PushList(g', pushes)))
    case Stop(pops) =>
      (match PopList(g, pops) case None => None case Some(_) => Some(DEAD))
    case DropOne =>
      (match PopAny(g) case None => None case Some((_, g')) => Some(g'))
    case SelectOne => SelectSlots(g)
    case TestOne =>
      (match PopAny(g) case None => None case Some((_, g')) => Some(Push(g', Known(I32))))
  }

  function Top(fs: seq<Frame>): Frame
    requires |fs| >= 1
  {
    fs[|fs| - 1]
  }

  function Outer(fs: seq<Frame>): seq<Frame>
    requires |fs| >= 1
  {
    fs[..|fs| - 1]
  }

  function WithTop(fs: seq<Frame>, g: Segment): seq<Frame>
    requires |fs| >= 1
  {
    Outer(fs) + [Top(fs).(seg := g)]
  }

  function Open(kind: Kind, elseSeen: bool, sig: FuncType): Frame {
    Frame(kind, elseSeen, sig, Segment(KnownAll(sig.params), false))
  }

  // A frame may close when its results, and nothing else, are on its segment.
  predicate Closes(f: Frame) {
    PopList(f.seg, f.sig.results).Some? && PopList(f.seg, f.sig.results).value.slots == []
  }

  function StepStart(env: Env, fs: seq<Frame>, kind: FrameKind, bt: BlockType): Option<seq<Frame>>
    requires |fs| >= 1
  {
    match Expand(env, bt)
    case None => None
    case Some(ft) =>
      match PopList(Top(fs).seg, Entry(kind, ft))
      case None => None
      case Some(g) => Some(WithTop(fs, g) + [Open(kind, false, ft)])
  }

  function StepElse(fs: seq<Frame>): Option<seq<Frame>>
    requires |fs| >= 1
  {
    var f := Top(fs);
    if f.kind == KIf && !f.elseSeen && Closes(f) then Some(Outer(fs) + [Open(KIf, true, f.sig)]) else None
  }

  // The emitter asserts that the body's own frame is never closed by End.
  function StepEnd(fs: seq<Frame>): Option<seq<Frame>>
    requires |fs| >= 1
  {
    var f := Top(fs);
    if |fs| >= 2 && Closes(f) && (f.kind == KIf && !f.elseSeen ==> f.sig.params == f.sig.results)
    then Some(WithTop(Outer(fs), PushList(Top(Outer(fs)).seg, f.sig.results)))
    else None
  }

  function StepOp(env: Env, fs: seq<Frame>, op: Op): Option<seq<Frame>>
    requires |fs| >= 1
  {
    match ApplyEffect(Top(fs).seg, EffectOf(env, LabelsOf(fs), op))
    case None => None
    case Some(g) => Some(WithTop(fs, g))
  }

  function Step(env: Env, fs: seq<Frame>, ev: Event): (r: Option<seq<Frame>>)
    requires |fs| >= 1
    ensures r.Some? ==> |r.value| >= 1
  {
    match ev
    case Do(op) => StepOp(env, fs, op)
    case Start(kind, bt) => StepStart(env, fs, kind, bt)
    case Else => StepElse(fs)
    case End => StepEnd(fs)
  }

  function Run(env: Env, fs: seq<Frame>, evs: seq<Event>): (r: Option<seq<Frame>>)
    requires |fs| >= 1
    ensures r.Some? ==> |r.value| >= 1
    decreases |evs|
  {
    if evs == [] then Some(fs)
    else
      match Run(env, fs, evs[..|evs| - 1])
      case None => None
      case Some(mid) => Step(env, mid, evs[|evs| - 1])
  }

  function Initial(env: Env): seq<Frame> {
    [Frame(KFunc, false, FuncType([], env.results), Segment([], false))]
  }

  // Init, the calls, then OnFunctionEnd, with no failure anywhere.
  predicate Accepts(env: Env, evs: seq<Event>) {
    var r := Run(env, Initial(env), evs);
    r.Some? && |r.value| == 1 && Closes(Top(r.value))
  }

  lemma RunSnoc(env: Env, fs: seq<Frame>, evs: seq<Event>, init: seq<Event>, last: Event)
    requires |fs| >= 1 && evs == init + [last]
    ensures Run(env, fs, evs) == match Run(env, fs, init) case None => None case Some(mid) => Step(env, mid, last)
  {
    assert evs[..|evs| - 1] == init;
  }

  lemma {:induction false} RunAppend(env: Env, fs: seq<Frame>, a: seq<Event>, b: seq<Event>)
    requires |fs| >= 1
    ensures Run(env, fs, a + b) == match Run(env, fs, a) case None => None case Some(mid) => Run(env, mid, b)
    decreases |b|
  {
    if b == [] {
      assert a + b == a;
    } else {
      RunAppend(env, fs, a, b[..|b| - 1]);
      RunSnoc(env, fs, a + b, a + b[..|b| - 1], b[|b| - 1]);
    }
  }

  lemma RunOne(env: Env, fs: seq<Frame>, ev: Event)
    requires |fs| >= 1
    ensures Run(env, fs, [ev]) == Step(env, fs, ev)
  {
    assert [ev][..0] == [];
    assert Run(env, fs, []) == Some(fs);
  }

  // The segment left after popping one value of type t.
  function PopType(g: Segment, t: ValType): Option<Segment> {
    if PopExpect(g, Known(t)).None? then None else Some(PopExpect(g, Known(t)).value.1)
  }

  function Then(g: Option<Segment>, t: ValType): Option<Segment> {
    if g.None? then None else PopType(g.value, t)
  }

  lemma PopLast(g: Segment, ts: seq<ValType>, t: ValType)
    ensures PopList(g, ts + [t]) ==
            if PopType(g, t).None? then None else PopList(PopType(g, t).value, ts)
  {
    assert (ts + [t])[..|ts|] == ts;
  }

  lemma {:induction false} LabelsAt(fs: seq<Frame>)
    ensures |LabelsOf(fs)| == |fs|
    ensures forall k | 0 <= k < |fs| :: LabelsOf(fs)[k] == Label(fs[k])
    decreases |fs|
  {
    if fs != [] {
      LabelsAt(fs[..|fs| - 1]);
    }
  }

  lemma WithTopLabels(fs: seq<Frame>, g: Segment)
    requires |fs| >= 1
    ensures LabelsOf(WithTop(fs, g)) == LabelsOf(fs)
  {
    assert Outer(WithTop(fs, g)) == Outer(fs);
  }
}
