/**
 The machine accepts a call sequence exactly when it builds a body that is declaratively typable.
 */
module Soundness {
  import opened Ints
  import opened Syntax
  import opened Typing
  import opened Machine
  import opened Exactness

  // A run that only touched the innermost segment.
  predicate SameFrames(fs: seq<Frame>, r: seq<Frame>)
    requires |fs| >= 1
  {
    |r| >= 1 && r == WithTop(fs, Top(r).seg)
  }

  lemma OpenLabels(fs: seq<Frame>, f: Frame)
    ensures LabelsOf(fs + [f]) == LabelsOf(fs) + [Label(f)]
  {
    assert (fs + [f])[..|fs|] == fs;
  }

  // An opened frame stands for its parameters and nothing else.
  lemma OpenRep(ts: seq<ValType>, s: seq<ValType>)
    ensures Rep(Segment(KnownAll(ts), false), s) <==> s == ts
  {
    var bottom := Segment([], false);
    assert PushList(bottom, ts) == Segment(KnownAll(ts), false) by {
      assert bottom.slots + KnownAll(ts) == KnownAll(ts);
    }
    PushListRep(bottom, ts, s);
    if Ends(s, ts) {
      EndsSplit(s, ts);
      assert Below(s, ts) == [] ==> s == ts;
    }
  }

  lemma ClosesRep(f: Frame)
    ensures Closes(f) <==> Rep(f.seg, f.sig.results)
  {
    PopListRep(f.seg, f.sig.results, []);
    assert [] + f.sig.results == f.sig.results;
  }

  // The frames after an opening call whose entry operands are on the stack.
  function Opened(fs: seq<Frame>, kind: FrameKind, ft: FuncType): seq<Frame>
    requires |fs| >= 1 && PopList(Top(fs).seg, Entry(kind, ft)).Some?
  {
    WithTop(fs, PopList(Top(fs).seg, Entry(kind, ft)).value) + [Open(kind, false, ft)]
  }

  // ... and after everything inside has been closed again.
  function Closed(fs: seq<Frame>, kind: FrameKind, ft: FuncType): seq<Frame>
    requires |fs| >= 1 && PopList(Top(fs).seg, Entry(kind, ft)).Some?
  {
    WithTop(fs, PushList(PopList(Top(fs).seg, Entry(kind, ft)).value, ft.results))
  }

  lemma OpenedFacts(fs: seq<Frame>, kind: FrameKind, ft: FuncType)
    requires |fs| >= 1 && PopList(Top(fs).seg, Entry(kind, ft)).Some?
    ensures LabelsOf(Opened(fs, kind, ft)) == LabelsOf(fs) + [LabelOf(kind, ft)]
    ensures Outer(Opened(fs, kind, ft)) == WithTop(fs, PopList(Top(fs).seg, Entry(kind, ft)).value)
    ensures Top(Opened(fs, kind, ft)) == Open(kind, false, ft)
  {
    OpenedOver(fs, PopList(Top(fs).seg, Entry(kind, ft)).value, Open(kind, false, ft));
  }

  // A frame over frames of which only the innermost segment changed.
  lemma OpenedOver(fs: seq<Frame>, g: Segment, f: Frame)
    requires |fs| >= 1
    ensures var r := WithTop(fs, g) + [f];
      LabelsOf(r) == LabelsOf(fs) + [Label(f)] && Outer(r) == WithTop(fs, g) && Top(r) == f
  {
    WithTopLabels(fs, g);
    OpenLabels(WithTop(fs, g), f);
  }

  // Closing a frame over `fs` leaves the entry operands replaced by the results.
  lemma EndFacts(fs: seq<Frame>, kind: FrameKind, ft: FuncType, inner: seq<Frame>, elseSeen: bool)
    requires |fs| >= 1 && PopList(Top(fs).seg, Entry(kind, ft)).Some?
    requires |inner| >= 1 && Outer(inner) == Outer(Opened(fs, kind, ft))
    requires Top(inner) == Open(kind, elseSeen, ft).(seg := Top(inner).seg)
    ensures StepEnd(inner).Some?
            <==> Rep(Top(inner).seg, ft.results) && (kind == KIf && !elseSeen ==> ft.params == ft.results)
    ensures StepEnd(inner).Some? ==> StepEnd(inner).value == Closed(fs, kind, ft)
  {
    OpenedFacts(fs, kind, ft);
    ClosesRep(Top(inner));
    var g := PopList(Top(fs).seg, Entry(kind, ft)).value;
    assert Top(Outer(inner)).seg == g;
    assert WithTop(WithTop(fs, g), PushList(g, ft.results)) == Closed(fs, kind, ft);
  }

  lemma RunScope(env: Env, fs: seq<Frame>, open: Event, body: seq<Event>, close: Event)
    requires |fs| >= 1
    ensures Run(env, fs, [open] + body + [close]) ==
            match Step(env, fs, open) case None => None case Some(fs1) =>
              match Run(env, fs1, body) case None => None case Some(fs2) => Step(env, fs2, close)
  {
    RunAppend(env, fs, [open] + body, [close]);
    RunAppend(env, fs, [open], body);
    RunOne(env, fs, open);
    if Step(env, fs, open).Some? {
      var fs1 := Step(env, fs, open).value;
      if Run(env, fs1, body).Some? {
        RunOne(env, Run(env, fs1, body).value, close);
      }
    }
  }

  lemma RunIfElse(env: Env, fs: seq<Frame>, bt: BlockType, thn: seq<Event>, els: seq<Event>)
    requires |fs| >= 1
    ensures Run(env, fs, [Start(KIf, bt)] + thn + [Else] + els + [End]) ==
            match Run(env, fs, [Start(KIf, bt)] + thn + [Else]) case None => None case Some(fs2) =>
              match Run(env, fs2, els) case None => None case Some(fs3) => StepEnd(fs3)
  {
    var a := [Start(KIf, bt)] + thn + [Else];
    RunAppend(env, fs, a + els, [End]);
    RunAppend(env, fs, a, els);
    if Run(env, fs, a).Some? {
      var fs2 := Run(env, fs, a).value;
      if Run(env, fs2, els).Some? {
        RunOne(env, Run(env, fs2, els).value, End);
      }
    }
  }

  // The frames once the then arm has been closed by `else`.
  function ElseOpened(fs: seq<Frame>, ft: FuncType): seq<Frame>
    requires |fs| >= 1 && PopList(Top(fs).seg, Entry(KIf, ft)).Some?
  {
    Outer(Opened(fs, KIf, ft)) + [Open(KIf, true, ft)]
  }

  lemma ElseFacts(env: Env, fs: seq<Frame>, bt: BlockType, thn: Code)
    requires |fs| >= 1 && Expand(env, bt).Some?
    requires PopList(Top(fs).seg, Entry(KIf, Expand(env, bt).value)).Some?
    requires Reaches(env, Opened(fs, KIf, Expand(env, bt).value), Flatten(thn), Expand(env, bt).value.results)
    ensures var ft := Expand(env, bt).value;
      && Run(env, fs, [Start(KIf, bt)] + Flatten(thn) + [Else]) == Some(ElseOpened(fs, ft))
      && LabelsOf(ElseOpened(fs, ft)) == LabelsOf(fs) + [ft.results]
      && Outer(ElseOpened(fs, ft)) == Outer(Opened(fs, KIf, ft))
      && Top(ElseOpened(fs, ft)) == Open(KIf, true, ft)
  {
    var ft := Expand(env, bt).value;
    OpenedFacts(fs, KIf, ft);
    var fs1 := Run(env, Opened(fs, KIf, ft), Flatten(thn)).value;
    ClosesRep(Top(fs1));
    RunScope(env, fs, Start(KIf, bt), Flatten(thn), Else);
    OpenLabels(Outer(Opened(fs, KIf, ft)), Open(KIf, true, ft));
    OpenLabels(Outer(Opened(fs, KIf, ft)), Open(KIf, false, ft));
    assert Opened(fs, KIf, ft) == Outer(Opened(fs, KIf, ft)) + [Open(KIf, false, ft)];
  }

  // The run of `evs` from `fs` stays inside the innermost frame and reaches the stack s2.
  predicate Reaches(env: Env, fs: seq<Frame>, evs: seq<Event>, s2: seq<ValType>)
    requires |fs| >= 1
  {
    && Run(env, fs, evs).Some?
    && SameFrames(fs, Run(env, fs, evs).value)
    && Rep(Top(Run(env, fs, evs).value).seg, s2)
  }

  lemma ReachesAfter(env: Env, fs: seq<Frame>, a: seq<Event>, m: seq<ValType>, b: seq<Event>, s2: seq<ValType>)
    requires |fs| >= 1 && Reaches(env, fs, a, m) && Reaches(env, Run(env, fs, a).value, b, s2)
    ensures Reaches(env, fs, a + b, s2)
  {
    RunAppend(env, fs, a, b);
  }

  // A scope whose body runs inside its frame ends well exactly when the results are represented.
  lemma ScopeRun(env: Env, fs: seq<Frame>, kind: FrameKind, bt: BlockType, body: Code)
    requires |fs| >= 1 && Expand(env, bt).Some?
    requires PopList(Top(fs).seg, Entry(kind, Expand(env, bt).value)).Some?
    requires var fs1 := Opened(fs, kind, Expand(env, bt).value);
      Run(env, fs1, Flatten(body)).Some? && SameFrames(fs1, Run(env, fs1, Flatten(body)).value)
    ensures var ft := Expand(env, bt).value;
      Run(env, fs, FlattenInstr(Scope(kind, bt, body))) ==
      if Rep(Top(Run(env, Opened(fs, kind, ft), Flatten(body)).value).seg, ft.results)
         && (kind == KIf ==> ft.params == ft.results)
      then Some(Closed(fs, kind, ft)) else None
  {
    var ft := Expand(env, bt).value;
    OpenedFacts(fs, kind, ft);
    EndFacts(fs, kind, ft, Run(env, Opened(fs, kind, ft), Flatten(body)).value, false);
    RunScope(env, fs, Start(kind, bt), Flatten(body), End);
  }

  lemma IfElseRun(env: Env, fs: seq<Frame>, bt: BlockType, thn: Code, els: Code)
    requires |fs| >= 1 && Expand(env, bt).Some?
    requires PopList(Top(fs).seg, Entry(KIf, Expand(env, bt).value)).Some?
    requires Reaches(env, Opened(fs, KIf, Expand(env, bt).value), Flatten(thn), Expand(env, bt).value.results)
    requires var fs2 := ElseOpened(fs, Expand(env, bt).value);
      Run(env, fs2, Flatten(els)).Some? && SameFrames(fs2, Run(env, fs2, Flatten(els)).value)
    ensures var ft := Expand(env, bt).value;
      Run(env, fs, FlattenInstr(IfElse(bt, thn, els))) ==
      if Rep(Top(Run(env, ElseOpened(fs, ft), Flatten(els)).value).seg, ft.results)
      then Some(Closed(fs, KIf, ft)) else None
  {
    var ft := Expand(env, bt).value;
    ElseFacts(env, fs, bt, thn);
    EndFacts(fs, KIf, ft, Run(env, ElseOpened(fs, ft), Flatten(els)).value, true);
    RunIfElse(env, fs, bt, Flatten(thn), Flatten(els));
  }

  lemma ScopeDone(
    env: Env, fs: seq<Frame>, kind: FrameKind, bt: BlockType, body: Code, s1: seq<ValType>, s2: seq<ValType>)
    requires |fs| >= 1 && Expand(env, bt).Some? && Rep(Top(fs).seg, s1)
    requires var ft := Expand(env, bt).value;
      && Rewrites(s1, Entry(kind, ft), s2, ft.results) && (kind == KIf ==> ft.params == ft.results)
      && PopList(Top(fs).seg, Entry(kind, ft)).Some?
      && Reaches(env, Opened(fs, kind, ft), Flatten(body), ft.results)
    ensures Reaches(env, fs, FlattenInstr(Scope(kind, bt, body)), s2)
  {
    var ft := Expand(env, bt).value;
    RewriteComplete(Top(fs).seg, Entry(kind, ft), ft.results, s1, s2);
    ScopeRun(env, fs, kind, bt, body);
  }

  lemma IfElseDone(env: Env, fs: seq<Frame>, bt: BlockType, thn: Code, els: Code, s1: seq<ValType>, s2: seq<ValType>)
    requires |fs| >= 1 && Expand(env, bt).Some? && Rep(Top(fs).seg, s1)
    requires var ft := Expand(env, bt).value;
      && Rewrites(s1, Entry(KIf, ft), s2, ft.results)
      && PopList(Top(fs).seg, Entry(KIf, ft)).Some?
      && Reaches(env, Opened(fs, KIf, ft), Flatten(thn), ft.results)
      && Reaches(env, ElseOpened(fs, ft), Flatten(els), ft.results)
    ensures Reaches(env, fs, FlattenInstr(IfElse(bt, thn, els)), s2)
  {
    var ft := Expand(env, bt).value;
    RewriteComplete(Top(fs).seg, Entry(KIf, ft), ft.results, s1, s2);
    IfElseRun(env, fs, bt, thn, els);
  }

  lemma {:induction false} CodeComplete(env: Env, fs: seq<Frame>, c: Code, s1: seq<ValType>, s2: seq<ValType>)
    requires |fs| >= 1 && Rep(Top(fs).seg, s1)
    requires TypedCode(false, env, LabelsOf(fs), c, s1, s2)
    ensures Reaches(env, fs, Flatten(c), s2)
    decreases c, 0
  {
    match c
    case Empty =>
    case Snoc(init, last) =>
      var m :| TypedCode(false, env, LabelsOf(fs), init, s1, m)
               && TypedInstr(false, env, LabelsOf(fs), last, m, s2);
      CodeComplete(env, fs, init, s1, m);
      var mid := Run(env, fs, Flatten(init)).value;
      WithTopLabels(fs, Top(mid).seg);
      InstrComplete(env, mid, last, m, s2);
      ReachesAfter(env, fs, Flatten(init), m, FlattenInstr(last), s2);
  }

  lemma {:induction false} InstrComplete(env: Env, fs: seq<Frame>, i: Instr, s1: seq<ValType>, s2: seq<ValType>)
    requires |fs| >= 1 && Rep(Top(fs).seg, s1)
    requires TypedInstr(false, env, LabelsOf(fs), i, s1, s2)
    ensures Reaches(env, fs, FlattenInstr(i), s2)
    decreases i, 0
  {
    match i
    case Plain(op) =>
      RunOne(env, fs, Do(op));
      EffectComplete(Top(fs).seg, EffectOf(env, LabelsOf(fs), op), s1, s2);
    case Scope(kind, bt, body) =>
      var ft := Expand(env, bt).value;
      RewriteComplete(Top(fs).seg, Entry(kind, ft), ft.results, s1, s2);
      OpenedFacts(fs, kind, ft);
      ArmComplete(env, Opened(fs, kind, ft), body);
      ScopeDone(env, fs, kind, bt, body, s1, s2);
    case IfElse(bt, thn, els) =>
      var ft := Expand(env, bt).value;
      RewriteComplete(Top(fs).seg, Entry(KIf, ft), ft.results, s1, s2);
      OpenedFacts(fs, KIf, ft);
      ArmComplete(env, Opened(fs, KIf, ft), thn);
      ElseFacts(env, fs, bt, thn);
      ArmComplete(env, ElseOpened(fs, ft), els);
      IfElseDone(env, fs, bt, thn, els, s1, s2);
  }

  // A typed arm runs from the freshly opened frame to its results.
  lemma {:induction false} ArmComplete(env: Env, fs: seq<Frame>, c: Code)
    requires |fs| >= 1
    requires Top(fs).seg == Segment(KnownAll(Top(fs).sig.params), false)
    requires TypedCode(false, env, LabelsOf(fs), c, Top(fs).sig.params, Top(fs).sig.results)
    ensures Reaches(env, fs, Flatten(c), Top(fs).sig.results)
    decreases c, 1
  {
    OpenRep(Top(fs).sig.params, Top(fs).sig.params);
    CodeComplete(env, fs, c, Top(fs).sig.params, Top(fs).sig.results);
  }

  // What a successful run of a scope says about its parts.
  lemma ScopeStarts(env: Env, fs: seq<Frame>, kind: FrameKind, bt: BlockType, body: Code) returns (ft: FuncType)
    requires |fs| >= 1 && Run(env, fs, FlattenInstr(Scope(kind, bt, body))).Some?
    ensures Expand(env, bt) == Some(ft) && PopList(Top(fs).seg, Entry(kind, ft)).Some?
    ensures Run(env, Opened(fs, kind, ft), Flatten(body)).Some?
    ensures Closes(Top(Run(env, Opened(fs, kind, ft), Flatten(body)).value))
  {
    RunScope(env, fs, Start(kind, bt), Flatten(body), End);
    ft := Expand(env, bt).value;
  }

  lemma IfElseStarts(env: Env, fs: seq<Frame>, bt: BlockType, thn: Code, els: Code) returns (ft: FuncType)
    requires |fs| >= 1 && Run(env, fs, FlattenInstr(IfElse(bt, thn, els))).Some?
    ensures Expand(env, bt) == Some(ft) && PopList(Top(fs).seg, Entry(KIf, ft)).Some?
    ensures Run(env, Opened(fs, KIf, ft), Flatten(thn)).Some?
    ensures Closes(Top(Run(env, Opened(fs, KIf, ft), Flatten(thn)).value))
  {
    RunIfElse(env, fs, bt, Flatten(thn), Flatten(els));
    RunScope(env, fs, Start(KIf, bt), Flatten(thn), Else);
    ft := Expand(env, bt).value;
  }

  lemma IfElseCloses(env: Env, fs: seq<Frame>, bt: BlockType, thn: Code, els: Code)
    requires |fs| >= 1 && Run(env, fs, FlattenInstr(IfElse(bt, thn, els))).Some?
    requires Expand(env, bt).Some? && PopList(Top(fs).seg, Entry(KIf, Expand(env, bt).value)).Some?
    requires Run(env, fs, [Start(KIf, bt)] + Flatten(thn) + [Else]) == Some(ElseOpened(fs, Expand(env, bt).value))
    ensures var r := Run(env, ElseOpened(fs, Expand(env, bt).value), Flatten(els)); r.Some? && Closes(Top(r.value))
  {
    RunIfElse(env, fs, bt, Flatten(thn), Flatten(els));
  }

  lemma {:induction false} CodeSound(env: Env, fs: seq<Frame>, c: Code, s2: seq<ValType>) returns (s1: seq<ValType>)
    requires |fs| >= 1 && Run(env, fs, Flatten(c)).Some?
    requires Rep(Top(Run(env, fs, Flatten(c)).value).seg, s2)
    ensures SameFrames(fs, Run(env, fs, Flatten(c)).value)
    ensures Rep(Top(fs).seg, s1) && TypedCode(false, env, LabelsOf(fs), c, s1, s2)
    decreases c, 0
  {
    match c
    case Empty => s1 := s2;
    case Snoc(init, last) =>
      RunAppend(env, fs, Flatten(init), FlattenInstr(last));
      var mid := Run(env, fs, Flatten(init)).value;
      var m := InstrSound(env, mid, last, s2);
      s1 := CodeSound(env, fs, init, m);
      WithTopLabels(fs, Top(mid).seg);
  }

  lemma {:induction false} InstrSound(env: Env, fs: seq<Frame>, i: Instr, s2: seq<ValType>) returns (s1: seq<ValType>)
    requires |fs| >= 1 && Run(env, fs, FlattenInstr(i)).Some?
    requires Rep(Top(Run(env, fs, FlattenInstr(i)).value).seg, s2)
    ensures SameFrames(fs, Run(env, fs, FlattenInstr(i)).value)
    ensures Rep(Top(fs).seg, s1) && TypedInstr(false, env, LabelsOf(fs), i, s1, s2)
    decreases i, 0
  {
    match i
    case Plain(op) =>
      RunOne(env, fs, Do(op));
      s1 := EffectSound(Top(fs).seg, EffectOf(env, LabelsOf(fs), op), s2);
    case Scope(kind, bt, body) =>
      var ft := ScopeStarts(env, fs, kind, bt, body);
      OpenedFacts(fs, kind, ft);
      ArmSound(env, Opened(fs, kind, ft), body);
      ScopeRun(env, fs, kind, bt, body);
      s1 := RewriteSound(Top(fs).seg, Entry(kind, ft), ft.results, s2);
    case IfElse(bt, thn, els) =>
      var ft := IfElseStarts(env, fs, bt, thn, els);
      OpenedFacts(fs, KIf, ft);
      ArmSound(env, Opened(fs, KIf, ft), thn);
      ClosesRep(Top(Run(env, Opened(fs, KIf, ft), Flatten(thn)).value));
      ElseFacts(env, fs, bt, thn);
      IfElseCloses(env, fs, bt, thn, els);
      ArmSound(env, ElseOpened(fs, ft), els);
      IfElseRun(env, fs, bt, thn, els);
      s1 := RewriteSound(Top(fs).seg, Entry(KIf, ft), ft.results, s2);
  }

  // An arm that ran from a freshly opened frame and may be closed is typed from the frame's
  // parameters to its results. The closing frame is not yet known to be the opened one.
  lemma {:induction false} ArmSound(env: Env, fs: seq<Frame>, c: Code)
    requires |fs| >= 1 && Top(fs).seg == Segment(KnownAll(Top(fs).sig.params), false)
    requires Run(env, fs, Flatten(c)).Some? && Closes(Top(Run(env, fs, Flatten(c)).value))
    ensures SameFrames(fs, Run(env, fs, Flatten(c)).value)
    ensures TypedCode(false, env, LabelsOf(fs), c, Top(fs).sig.params, Top(fs).sig.results)
    decreases c, 1
  {
    var r := Run(env, fs, Flatten(c)).value;
    ClosesRep(Top(r));
    var s1 := CodeSound(env, fs, c, Top(r).sig.results);
    OpenRep(Top(fs).sig.params, s1);
  }

  // Some stack the frame represents is typed to s2.
  ghost predicate Produces(env: Env, fs: seq<Frame>, c: Code, s2: seq<ValType>)
    requires |fs| >= 1
  {
    exists s1 :: Rep(Top(fs).seg, s1) && TypedCode(false, env, LabelsOf(fs), c, s1, s2)
  }

  // For every body: the machine fails on it exactly when it has no type from a represented stack,
  // and otherwise leaves the set of all stacks it can produce.
  lemma CodeExact(env: Env, fs: seq<Frame>, c: Code)
    requires |fs| >= 1
    ensures Run(env, fs, Flatten(c)).Some? <==> exists s2 :: Produces(env, fs, c, s2)
    ensures Run(env, fs, Flatten(c)).Some? ==>
              && SameFrames(fs, Run(env, fs, Flatten(c)).value)
              && forall s2 :: Rep(Top(Run(env, fs, Flatten(c)).value).seg, s2) <==> Produces(env, fs, c, s2)
  {
    forall s2 | Produces(env, fs, c, s2)
      ensures Reaches(env, fs, Flatten(c), s2)
    {
      var s1 :| Rep(Top(fs).seg, s1) && TypedCode(false, env, LabelsOf(fs), c, s1, s2);
      CodeComplete(env, fs, c, s1, s2);
    }
    if Run(env, fs, Flatten(c)).Some? {
      var g := Top(Run(env, fs, Flatten(c)).value).seg;
      forall s2 | Rep(g, s2)
        ensures Produces(env, fs, c, s2)
      {
        var s1 := CodeSound(env, fs, c, s2);
      }
      var s1 := CodeSound(env, fs, c, Fill(g));
      assert Produces(env, fs, c, Fill(g));
    }
  }
}
