/**
 The checking machine tree by tree: on the calls of a body it computes one segment from another, with the
 inside of each block checked on its own.
 */
module TreeCheck {
  import opened Ints
  import opened Syntax
  import opened Typing
  import opened Machine
  import opened Soundness
  import opened Acceptance

  predicate ClosesWith(g: Segment, results: seq<ValType>) {
    PopList(g, results).Some? && PopList(g, results).value.slots == []
  }

  function CheckCode(env: Env, labels: LabelStack, g: Segment, c: Code): Option<Segment>
    decreases c, 0
  {
    match c
    case Empty => Some(g)
    case Snoc(init, last) =>
      match CheckCode(env, labels, g, init) case None => None case Some(m) => CheckInstr(env, labels, m, last)
  }

  function CheckInstr(env: Env, labels: LabelStack, g: Segment, i: Instr): Option<Segment>
    decreases i, 0
  {
    match i
    case Plain(op) => ApplyEffect(g, EffectOf(env, labels, op))
    case Scope(kind, bt, body) =>
      if Expand(env, bt).None? then None
      else
        var ft := Expand(env, bt).value;
        if PopList(g, Entry(kind, ft)).None? || (kind == KIf && ft.params != ft.results)
           || !CheckArm(env, labels + [LabelOf(kind, ft)], body, ft)
        then None else Some(PushList(PopList(g, Entry(kind, ft)).value, ft.results))
    case IfElse(bt, thn, els) =>
      if Expand(env, bt).None? then None
      else
        var ft := Expand(env, bt).value;
        if PopList(g, Entry(KIf, ft)).None? || !CheckArm(env, labels + [ft.results], thn, ft)
           || !CheckArm(env, labels + [ft.results], els, ft)
        then None else Some(PushList(PopList(g, Entry(KIf, ft)).value, ft.results))
  }

  // An arm, from its parameters to its results.
  predicate CheckArm(env: Env, labels: LabelStack, c: Code, ft: FuncType)
    decreases c, 1
  {
    var r := CheckCode(env, labels, Holding(ft.params), c);
    r.Some? && ClosesWith(r.value, ft.results)
  }

  // A run over the calls of a tree only changes the innermost segment, as the tree says.
  lemma {:induction false} RunIsCheck(env: Env, fs: seq<Frame>, c: Code)
    requires |fs| >= 1
    ensures Run(env, fs, Flatten(c)) ==
            match CheckCode(env, LabelsOf(fs), Top(fs).seg, c) case None => None case Some(g) => Some(WithTop(fs, g))
    decreases c, 0
  {
    match c
    case Empty => assert WithTop(fs, Top(fs).seg) == fs;
    case Snoc(init, last) =>
      RunAppend(env, fs, Flatten(init), FlattenInstr(last));
      RunIsCheck(env, fs, init);
      var m := CheckCode(env, LabelsOf(fs), Top(fs).seg, init);
      if m.Some? {
        WithTopLabels(fs, m.value);
        RunIsCheckInstr(env, WithTop(fs, m.value), last);
        assert forall g :: WithTop(WithTop(fs, m.value), g) == WithTop(fs, g);
      }
  }

  lemma {:induction false} RunIsCheckInstr(env: Env, fs: seq<Frame>, i: Instr)
    requires |fs| >= 1
    ensures Run(env, fs, FlattenInstr(i)) ==
            match CheckInstr(env, LabelsOf(fs), Top(fs).seg, i) case None => None case Some(g) => Some(WithTop(fs, g))
    decreases i, 1
  {
    match i
    case Plain(op) => RunOne(env, fs, Do(op));
    case Scope(kind, bt, body) =>
      RunScope(env, fs, Start(kind, bt), Flatten(body), End);
      if Expand(env, bt).Some? && PopList(Top(fs).seg, Entry(kind, Expand(env, bt).value)).Some? {
        ScopeIsChecked(env, fs, kind, Expand(env, bt).value, body);
      }
    case IfElse(bt, thn, els) => RunIsCheckIf(env, fs, i, bt, thn, els);
  }

  lemma {:induction false} RunIsCheckIf(env: Env, fs: seq<Frame>, i: Instr, bt: BlockType, thn: Code, els: Code)
    requires |fs| >= 1 && i == IfElse(bt, thn, els)
    ensures Run(env, fs, FlattenInstr(i)) ==
            match CheckInstr(env, LabelsOf(fs), Top(fs).seg, i) case None => None case Some(g) => Some(WithTop(fs, g))
    decreases i, 0
  {
    if Enters(env, fs, bt) {
      var ft := Expand(env, bt).value;
      if CheckArm(env, LabelsOf(fs) + [ft.results], thn, ft) {
        IfElseRuns(env, fs, bt, thn, els, Some(ElseOpened(fs, ft)));
        ElseIsChecked(env, fs, ft, els);
      } else {
        IfElseRuns(env, fs, bt, thn, els, None);
      }
    } else {
      IfElseRuns(env, fs, bt, thn, els, None);
    }
  }

  // From the frames after `else`, if it gets there.
  lemma {:induction false} IfElseRuns(
    env: Env, fs: seq<Frame>, bt: BlockType, thn: Code, els: Code, mid: Option<seq<Frame>>)
    requires |fs| >= 1
    requires mid == if Enters(env, fs, bt)
                       && CheckArm(env, LabelsOf(fs) + [Expand(env, bt).value.results], thn, Expand(env, bt).value)
                    then Some(ElseOpened(fs, Expand(env, bt).value)) else None
    ensures Run(env, fs, FlattenInstr(IfElse(bt, thn, els))) ==
            match mid case None => None case Some(fs2) =>
              match Run(env, fs2, Flatten(els)) case None => None case Some(fs3) => StepEnd(fs3)
    decreases thn, 3
  {
    RunIfElse(env, fs, bt, Flatten(thn), Flatten(els));
    ThenRun(env, fs, bt, thn);
  }

  predicate Enters(env: Env, fs: seq<Frame>, bt: BlockType)
    requires |fs| >= 1
  {
    Expand(env, bt).Some? && PopList(Top(fs).seg, Entry(KIf, Expand(env, bt).value)).Some?
  }

  // From the opening call up to `else`.
  lemma {:induction false} ThenRun(env: Env, fs: seq<Frame>, bt: BlockType, thn: Code)
    requires |fs| >= 1
    ensures Run(env, fs, [Start(KIf, bt)] + Flatten(thn) + [Else]) ==
            if Enters(env, fs, bt) && CheckArm(env, LabelsOf(fs) + [Expand(env, bt).value.results], thn, Expand(env, bt).value)
            then Some(ElseOpened(fs, Expand(env, bt).value)) else None
    decreases thn, 2
  {
    StartEnters(env, fs, bt);
    RunScope(env, fs, Start(KIf, bt), Flatten(thn), Else);
    if Enters(env, fs, bt) {
      var ft := Expand(env, bt).value;
      var r := Run(env, Opened(fs, KIf, ft), Flatten(thn));
      ThenIsChecked(env, fs, ft, thn);
      assert r.Some? ==> Step(env, r.value, Else) == StepElse(r.value);
    }
  }

  lemma StartEnters(env: Env, fs: seq<Frame>, bt: BlockType)
    requires |fs| >= 1
    ensures Step(env, fs, Start(KIf, bt)) ==
            if Enters(env, fs, bt) then Some(Opened(fs, KIf, Expand(env, bt).value)) else None
  {}

  // A body, from the frame its opening call pushed.
  lemma {:induction false} ScopeIsChecked(env: Env, fs: seq<Frame>, kind: FrameKind, ft: FuncType, body: Code)
    requires |fs| >= 1 && PopList(Top(fs).seg, Entry(kind, ft)).Some?
    ensures var r := Run(env, Opened(fs, kind, ft), Flatten(body));
      && (r.Some? && StepEnd(r.value).Some?
          <==> CheckArm(env, LabelsOf(fs) + [LabelOf(kind, ft)], body, ft) && (kind == KIf ==> ft.params == ft.results))
      && (r.Some? && StepEnd(r.value).Some? ==> StepEnd(r.value).value == Closed(fs, kind, ft))
    decreases body, 1
  {
    OpenedFacts(fs, kind, ft);
    RunIsCheck(env, Opened(fs, kind, ft), body);
    var r := Run(env, Opened(fs, kind, ft), Flatten(body));
    if r.Some? {
      EndFacts(fs, kind, ft, r.value, false);
      ClosesRep(Top(r.value));
    }
  }

  lemma {:induction false} ThenIsChecked(env: Env, fs: seq<Frame>, ft: FuncType, thn: Code)
    requires |fs| >= 1 && PopList(Top(fs).seg, Entry(KIf, ft)).Some?
    ensures var r := Run(env, Opened(fs, KIf, ft), Flatten(thn));
      && (r.Some? && StepElse(r.value).Some? <==> CheckArm(env, LabelsOf(fs) + [ft.results], thn, ft))
      && (r.Some? && StepElse(r.value).Some? ==> StepElse(r.value).value == ElseOpened(fs, ft))
    decreases thn, 1
  {
    OpenedFacts(fs, KIf, ft);
    RunIsCheck(env, Opened(fs, KIf, ft), thn);
  }

  // The else arm, from the frame that `else` opens.
  lemma {:induction false} ElseIsChecked(env: Env, fs: seq<Frame>, ft: FuncType, els: Code)
    requires |fs| >= 1 && PopList(Top(fs).seg, Entry(KIf, ft)).Some?
    ensures var fs2 := ElseOpened(fs, ft); var r := Run(env, fs2, Flatten(els));
      && (r.Some? && StepEnd(r.value).Some? <==> CheckArm(env, LabelsOf(fs) + [ft.results], els, ft))
      && (r.Some? && StepEnd(r.value).Some? ==> StepEnd(r.value).value == Closed(fs, KIf, ft))
    decreases els, 1
  {
    var fs2 := ElseOpened(fs, ft);
    OpenedFacts(fs, KIf, ft);
    OpenLabels(Outer(Opened(fs, KIf, ft)), Open(KIf, true, ft));
    OpenLabels(Outer(Opened(fs, KIf, ft)), Open(KIf, false, ft));
    assert Opened(fs, KIf, ft) == Outer(Opened(fs, KIf, ft)) + [Open(KIf, false, ft)];
    RunIsCheck(env, fs2, els);
    var r := Run(env, fs2, Flatten(els));
    if r.Some? {
      EndFacts(fs, KIf, ft, r.value, true);
      ClosesRep(Top(r.value));
    }
  }

  lemma AcceptsIsCheck(env: Env, c: Code)
    ensures Accepts(env, Flatten(c)) <==> CheckArm(env, [env.results], c, FuncType([], env.results))
  {
    BodyIsCheck(env, c, FuncType([], env.results));
  }

  lemma BodyIsCheck(env: Env, c: Code, ft: FuncType)
    requires ft == FuncType([], env.results)
    ensures Accepts(env, Flatten(c)) <==> CheckArm(env, [env.results], c, ft)
  {
    var g := Holding(ft.params);
    assert LabelsOf(Initial(env)) == [env.results] && Top(Initial(env)).seg == g by {
      InitialFacts(env);
      assert KnownAll(ft.params) == [];
    }
    RunIsCheck(env, Initial(env), c);
    var r := CheckCode(env, [env.results], g, c);
    if r.Some? {
      BodyCloses(env, r.value);
    }
  }

  lemma BodyCloses(env: Env, g: Segment)
    ensures var fs := WithTop(Initial(env), g); |fs| == 1 && (Closes(Top(fs)) <==> ClosesWith(g, env.results))
  {}
}
