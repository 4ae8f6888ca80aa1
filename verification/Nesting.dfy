/**
 Which blocks are open around a call. From the log: an opening call opens a block and `end` closes the
 innermost one. From the tree: the blocks that contain the instruction. The two agree, and the checking
 machine has one frame for each, so a relative depth means the same block in all three.
 */
module Nesting {
  import opened Ints
  import opened Syntax
  import opened Typing
  import opened Machine

  // A block, known by the call that opened it.
  datatype Opening = Opening(at: nat, kind: FrameKind, bt: BlockType)

  // The open blocks after one more call, outermost first.
  function Nest(open: seq<Opening>, at: nat, ev: Event): seq<Opening> {
    match ev
    case Start(kind, bt) => open + [Opening(at, kind, bt)]
    case End => if open == [] then [] else open[..|open| - 1]
    case _ => open
  }

  function NestAll(open: seq<Opening>, at: nat, evs: seq<Event>): seq<Opening> {
    if evs == [] then open
    else
      var n := |evs| - 1;
      Nest(NestAll(open, at, evs[..n]), at + n, evs[n])
  }

  lemma NestLast(open: seq<Opening>, at: nat, evs: seq<Event>)
    requires evs != []
    ensures NestAll(open, at, evs) == var n := |evs| - 1; Nest(NestAll(open, at, evs[..n]), at + n, evs[n])
  {}

  function OpenAfter(evs: seq<Event>): seq<Opening> {
    NestAll([], 0, evs)
  }

  lemma {:induction false} NestAppend(open: seq<Opening>, at: nat, a: seq<Event>, b: seq<Event>)
    ensures NestAll(open, at, a + b) == NestAll(NestAll(open, at, a), at + |a|, b)
    decreases |b|
  {
    if b == [] {
      assert a + b == a;
    } else {
      var n := |b| - 1;
      assert (a + b)[..|a| + n] == a + b[..n];
      NestAppend(open, at, a, b[..n]);
    }
  }

  lemma NestOne(open: seq<Opening>, at: nat, ev: Event)
    ensures NestAll(open, at, [ev]) == Nest(open, at, ev)
  {
    assert [ev][..0] == [];
    assert NestAll(open, at, []) == open;
  }

  // At the end of the log, the rel-th block outwards is o.
  predicate Targets(evs: seq<Event>, rel: nat, o: Opening) {
    rel < |OpenAfter(evs)| && OpenAfter(evs)[|OpenAfter(evs)| - 1 - rel] == o
  }

  lemma OpenSnoc(evs: seq<Event>, ev: Event)
    ensures OpenAfter(evs + [ev]) == Nest(OpenAfter(evs), |evs|, ev)
  {
    NestAppend([], 0, evs, [ev]);
    NestOne(OpenAfter(evs), |evs|, ev);
  }

  // Every open block was opened by the call it names.
  lemma {:induction false} OpenedByStart(evs: seq<Event>, k: nat)
    requires k < |OpenAfter(evs)|
    ensures var o := OpenAfter(evs)[k]; o.at < |evs| && evs[o.at] == Start(o.kind, o.bt)
    decreases |evs|
  {
    var init := evs[..|evs| - 1];
    if k < |OpenAfter(init)| {
      OpenedByStart(init, k);
      assert evs[OpenAfter(init)[k].at] == init[OpenAfter(init)[k].at];
    }
  }

  /* The tree. */

  // The blocks of `c` around its p-th call, when `base` calls come before it.
  function Around(c: Code, base: nat, p: nat): seq<Opening>
    decreases c, 0
  {
    match c
    case Empty => []
    case Snoc(init, last) =>
      var n := |Flatten(init)|;
      if p < n then Around(init, base, p) else AroundInstr(last, base + n, p - n)
  }

  // The same inside an arm; behind its last call nothing of it is open.
  function Inside(c: Code, base: nat, p: nat): seq<Opening>
    decreases c, 1
  {
    if p < |Flatten(c)| then Around(c, base, p) else []
  }

  function AroundInstr(i: Instr, base: nat, p: nat): seq<Opening>
    decreases i, 0
  {
    match i
    case Plain(_) => []
    case Scope(kind, bt, body) => if p == 0 then [] else [Opening(base, kind, bt)] + Inside(body, base + 1, p - 1)
    case IfElse(bt, thn, els) =>
      var n := |Flatten(thn)| + 2;
      if p == 0 then []
      else if p < n then [Opening(base, KIf, bt)] + Inside(thn, base + 1, p - 1)
      else [Opening(base, KIf, bt)] + Inside(els, base + n, p - n)
  }

  // The calls of a whole tree leave the open blocks as they were.
  lemma {:induction false} Balanced(open: seq<Opening>, at: nat, c: Code)
    ensures NestAll(open, at, Flatten(c)) == open
    decreases c, 0
  {
    match c
    case Empty =>
    case Snoc(init, last) =>
      NestAppend(open, at, Flatten(init), FlattenInstr(last));
      Balanced(open, at, init);
      BalancedInstr(open, at + |Flatten(init)|, last);
  }

  lemma {:induction false} BalancedInstr(open: seq<Opening>, at: nat, i: Instr)
    ensures NestAll(open, at, FlattenInstr(i)) == open
    decreases i, 0
  {
    match i
    case Plain(op) => NestOne(open, at, Do(op));
    case Scope(kind, bt, body) =>
      Entered(open, at, kind, bt, body);
      NestAppend(open, at, [Start(kind, bt)] + Flatten(body), [End]);
      NestOne(open + [Opening(at, kind, bt)], at + 1 + |Flatten(body)|, End);
    case IfElse(bt, thn, els) =>
      Entered(open, at, KIf, bt, thn);
      Turned(open, at, bt, thn);
      Balanced(open + [Opening(at, KIf, bt)], at + 2 + |Flatten(thn)|, els);
      NestAppend(open, at, [Start(KIf, bt)] + Flatten(thn) + [Else], Flatten(els));
      NestAppend(open, at, [Start(KIf, bt)] + Flatten(thn) + [Else] + Flatten(els), [End]);
      NestOne(open + [Opening(at, KIf, bt)], at + 2 + |Flatten(thn)| + |Flatten(els)|, End);
  }

  // Just before the call that ends a body.
  lemma {:induction false} Entered(open: seq<Opening>, at: nat, kind: FrameKind, bt: BlockType, body: Code)
    ensures NestAll(open, at, [Start(kind, bt)] + Flatten(body)) == open + [Opening(at, kind, bt)]
    decreases body, 1
  {
    NestAppend(open, at, [Start(kind, bt)], Flatten(body));
    NestOne(open, at, Start(kind, bt));
    Balanced(open + [Opening(at, kind, bt)], at + 1, body);
  }

  // Just after `else`.
  lemma {:induction false} Turned(open: seq<Opening>, at: nat, bt: BlockType, thn: Code)
    ensures NestAll(open, at, [Start(KIf, bt)] + Flatten(thn) + [Else]) == open + [Opening(at, KIf, bt)]
    decreases thn, 2
  {
    Entered(open, at, KIf, bt, thn);
    NestAppend(open, at, [Start(KIf, bt)] + Flatten(thn), [Else]);
    NestOne(open + [Opening(at, KIf, bt)], at + 1 + |Flatten(thn)|, Else);
  }

  // The open blocks at a call of the tree are those around it.
  lemma {:induction false} OpenIsAround(open: seq<Opening>, at: nat, c: Code, p: nat)
    requires p < |Flatten(c)|
    ensures NestAll(open, at, Flatten(c)[..p]) == open + Around(c, at, p)
    decreases c, 0
  {
    var init, last := c.init, c.last;
    var n := |Flatten(init)|;
    if p < n {
      OpenIsAround(open, at, init, p);
      assert Flatten(c)[..p] == Flatten(init)[..p];
    } else {
      NestAppend(open, at, Flatten(init), FlattenInstr(last)[..p - n]);
      Balanced(open, at, init);
      OpenIsAroundInstr(open, at + n, last, p - n);
      assert Flatten(c)[..p] == Flatten(init) + FlattenInstr(last)[..p - n];
    }
  }

  lemma {:induction false} OpenIsAroundInstr(open: seq<Opening>, at: nat, i: Instr, p: nat)
    requires p < |FlattenInstr(i)|
    ensures NestAll(open, at, FlattenInstr(i)[..p]) == open + AroundInstr(i, at, p)
    decreases i, 1
  {
    if p == 0 {
      assert FlattenInstr(i)[..0] == [];
    } else {
      match i {
        case Scope(kind, bt, body) => OpenInScope(open, at, kind, bt, body, p);
        case IfElse(bt, thn, els) =>
          ArmCalls(bt, thn, els);
          OpenInIf(open, at, bt, thn, els, FlattenInstr(i), p);
      }
    }
  }

  lemma {:induction false} OpenInScope(
    open: seq<Opening>, at: nat, kind: FrameKind, bt: BlockType, body: Code, p: nat)
    requires 0 < p <= |Flatten(body)| + 1
    ensures var i := Scope(kind, bt, body);
      NestAll(open, at, FlattenInstr(i)[..p]) == open + AroundInstr(i, at, p)
    decreases body, 2
  {
    var all, o := FlattenInstr(Scope(kind, bt, body)), Opening(at, kind, bt);
    NestOne(open, at, Start(kind, bt));
    OpenInArm(open, at, open + [o], [Start(kind, bt)], body, all, p);
    Behind(open, o, Inside(body, at + 1, p - 1));
  }

  lemma Behind(open: seq<Opening>, o: Opening, more: seq<Opening>)
    ensures open + [o] + more == open + ([o] + more)
  {}

  lemma ArmCalls(bt: BlockType, thn: Code, els: Code)
    ensures var all := FlattenInstr(IfElse(bt, thn, els)); var n := |Flatten(thn)| + 2;
      && |all| == n + |Flatten(els)| + 1
      && all[..n - 1] == [Start(KIf, bt)] + Flatten(thn)
      && all[..n + |Flatten(els)|] == [Start(KIf, bt)] + Flatten(thn) + [Else] + Flatten(els)
  {}

  lemma {:induction false} OpenInIf(
    open: seq<Opening>, at: nat, bt: BlockType, thn: Code, els: Code, all: seq<Event>, p: nat)
    requires 0 < p <= |Flatten(thn)| + 2 + |Flatten(els)| <= |all|
    requires all[..|Flatten(thn)| + 1] == [Start(KIf, bt)] + Flatten(thn)
    requires all[..|Flatten(thn)| + 2 + |Flatten(els)|] == [Start(KIf, bt)] + Flatten(thn) + [Else] + Flatten(els)
    ensures NestAll(open, at, all[..p]) == open + AroundInstr(IfElse(bt, thn, els), at, p)
    decreases IfElse(bt, thn, els), 0
  {
    var o, n := Opening(at, KIf, bt), |Flatten(thn)| + 2;
    if p < n {
      OpenInThen(open, at, bt, thn, all, p);
      Behind(open, o, Inside(thn, at + 1, p - 1));
    } else {
      OpenInElse(open, at, bt, thn, els, all, p);
      Behind(open, o, Inside(els, at + n, p - n));
    }
  }

  lemma {:induction false} OpenInThen(
    open: seq<Opening>, at: nat, bt: BlockType, thn: Code, all: seq<Event>, p: nat)
    requires 0 < p <= |Flatten(thn)| + 1 <= |all| && all[..|Flatten(thn)| + 1] == [Start(KIf, bt)] + Flatten(thn)
    ensures NestAll(open, at, all[..p]) == open + [Opening(at, KIf, bt)] + Inside(thn, at + 1, p - 1)
    decreases thn, 2
  {
    NestOne(open, at, Start(KIf, bt));
    OpenInArm(open, at, open + [Opening(at, KIf, bt)], [Start(KIf, bt)], thn, all, p);
  }

  lemma {:induction false} OpenInElse(
    open: seq<Opening>, at: nat, bt: BlockType, thn: Code, els: Code, all: seq<Event>, p: nat)
    requires |Flatten(thn)| + 2 <= p <= |Flatten(thn)| + 2 + |Flatten(els)| <= |all|
    requires all[..|Flatten(thn)| + 2 + |Flatten(els)|] == [Start(KIf, bt)] + Flatten(thn) + [Else] + Flatten(els)
    ensures NestAll(open, at, all[..p]) ==
            open + [Opening(at, KIf, bt)] + Inside(els, at + |Flatten(thn)| + 2, p - |Flatten(thn)| - 2)
    decreases els, 2
  {
    Turned(open, at, bt, thn);
    OpenInArm(open, at, open + [Opening(at, KIf, bt)], [Start(KIf, bt)] + Flatten(thn) + [Else], els, all, p);
  }

  // At call p of `all`, inside or just behind the arm `c` that comes after the calls `head`.
  lemma {:induction false} OpenInArm(
    open: seq<Opening>, at: nat, inner: seq<Opening>, head: seq<Event>, c: Code, all: seq<Event>, p: nat)
    requires |head| <= p <= |head| + |Flatten(c)| <= |all| && all[..|head| + |Flatten(c)|] == head + Flatten(c)
    requires NestAll(open, at, head) == inner
    ensures NestAll(open, at, all[..p]) == inner + Inside(c, at + |head|, p - |head|)
    decreases c, 1
  {
    var q := p - |head|;
    assert all[..p] == all[..|head| + |Flatten(c)|][..p] == head + Flatten(c)[..q];
    NestAppend(open, at, head, Flatten(c)[..q]);
    if q < |Flatten(c)| {
      OpenIsAround(inner, at + |head|, c, q);
    } else {
      assert Flatten(c)[..q] == Flatten(c);
      Balanced(inner, at + |head|, c);
    }
  }

  lemma OpenAtCall(c: Code, p: nat)
    requires p < |Flatten(c)|
    ensures OpenAfter(Flatten(c)[..p]) == Around(c, 0, p)
  {
    OpenIsAround([], 0, c, p);
    assert [] + Around(c, 0, p) == Around(c, 0, p);
  }

  lemma TargetIsStart(evs: seq<Event>, rel: nat, o: Opening)
    requires Targets(evs, rel, o)
    ensures o.at < |evs| && evs[o.at] == Start(o.kind, o.bt)
  {
    OpenedByStart(evs, |OpenAfter(evs)| - 1 - rel);
  }

  // A branch of relative depth rel at call p of a tree means the block its handle opened, if that is the
  // rel-th open block when the branch is emitted. Which calls follow does not matter.
  lemma BranchMeansBlock(c: Code, p: nat, rel: nat, o: Opening)
    requires p < |Flatten(c)| && Targets(Flatten(c)[..p], rel, o)
    ensures var blocks := Around(c, 0, p); rel < |blocks| && blocks[|blocks| - 1 - rel] == o
    ensures o.at < p && Flatten(c)[o.at] == Start(o.kind, o.bt)
  {
    OpenAtCall(c, p);
    TargetIsStart(Flatten(c)[..p], rel, o);
  }

  /* The machine. */

  // One frame for each open block, above the body's own.
  predicate FramesMatch(env: Env, fs: seq<Frame>, open: seq<Opening>) {
    && |fs| == |open| + 1
    && forall k | 0 <= k < |open| :: fs[k + 1].kind == open[k].kind && Expand(env, open[k].bt) == Some(fs[k + 1].sig)
  }

  lemma StepMatches(env: Env, fs: seq<Frame>, open: seq<Opening>, at: nat, ev: Event)
    requires FramesMatch(env, fs, open) && Step(env, fs, ev).Some?
    ensures FramesMatch(env, Step(env, fs, ev).value, Nest(open, at, ev))
  {
    var next := Step(env, fs, ev).value;
    match ev
    case Do(op) => SameSignatures(env, fs, next, open);
    case Else => SameSignatures(env, fs, next, open);
    case Start(kind, bt) => OneMoreMatches(env, fs, next, open, Opening(at, kind, bt));
    case End => OneLessMatches(env, fs, next, open);
  }

  lemma SameSignatures(env: Env, fs: seq<Frame>, next: seq<Frame>, open: seq<Opening>)
    requires FramesMatch(env, fs, open) && |next| == |fs|
    requires forall k | 0 <= k < |fs| :: next[k].kind == fs[k].kind && next[k].sig == fs[k].sig
    ensures FramesMatch(env, next, open)
  {}

  lemma OneMoreMatches(env: Env, fs: seq<Frame>, next: seq<Frame>, open: seq<Opening>, o: Opening)
    requires FramesMatch(env, fs, open) && |next| == |fs| + 1
    requires forall k | 0 <= k < |fs| :: next[k].kind == fs[k].kind && next[k].sig == fs[k].sig
    requires next[|fs|].kind == o.kind && Expand(env, o.bt) == Some(next[|fs|].sig)
    ensures FramesMatch(env, next, open + [o])
  {}

  lemma OneLessMatches(env: Env, fs: seq<Frame>, next: seq<Frame>, open: seq<Opening>)
    requires FramesMatch(env, fs, open) && |next| == |fs| - 1 && open != []
    requires forall k | 0 <= k < |next| :: next[k].kind == fs[k].kind && next[k].sig == fs[k].sig
    ensures FramesMatch(env, next, open[..|open| - 1])
  {}

  // The calls lead from fs to end. The quantifier keeps the steps out of a proof that does not ask.
  ghost predicate Leads(env: Env, fs: seq<Frame>, evs: seq<Event>, end: seq<Frame>)
    requires |fs| >= 1
  {
    forall es | es == evs :: Run(env, fs, es) == Some(end)
  }

  // The last call takes one step, and matching frames to matching frames.
  lemma LastMatches(env: Env, fs: seq<Frame>, open: seq<Opening>, at: nat, evs: seq<Event>, end: seq<Frame>)
    returns (mid: seq<Frame>)
    requires |fs| >= 1 && evs != [] && Leads(env, fs, evs, end)
    ensures Leads(env, fs, evs[..|evs| - 1], mid)
    ensures FramesMatch(env, mid, open) ==> FramesMatch(env, end, Nest(open, at, evs[|evs| - 1]))
  {
    var n := |evs| - 1;
    assert Run(env, fs, evs) == Some(end);
    mid := Run(env, fs, evs[..n]).value;
    if FramesMatch(env, mid, open) {
      StepMatches(env, mid, open, at, evs[n]);
    }
  }

  lemma {:induction false} RunMatchesFrom(
    env: Env, fs: seq<Frame>, open: seq<Opening>, at: nat, evs: seq<Event>, end: seq<Frame>)
    requires |fs| >= 1 && FramesMatch(env, fs, open) && Leads(env, fs, evs, end)
    ensures FramesMatch(env, end, NestAll(open, at, evs))
    decreases |evs|
  {
    if evs == [] {
      assert Run(env, fs, evs) == Some(end);
    } else {
      var n := |evs| - 1;
      var mid := LastMatches(env, fs, NestAll(open, at, evs[..n]), at + n, evs, end);
      RunMatchesFrom(env, fs, open, at, evs[..n], mid);
      NestLast(open, at, evs);
    }
  }

  lemma RunMatches(env: Env, evs: seq<Event>)
    requires Run(env, Initial(env), evs).Some?
    ensures FramesMatch(env, Run(env, Initial(env), evs).value, OpenAfter(evs))
  {
    RunMatchesFrom(env, Initial(env), [], 0, evs, Run(env, Initial(env), evs).value);
  }

  // The label the machine finds at a relative depth is that of the block the depth means.
  lemma LabelMeansBlock(env: Env, fs: seq<Frame>, open: seq<Opening>, rel: nat)
    requires FramesMatch(env, fs, open) && rel < |open|
    ensures rel < |LabelsOf(fs)|
    ensures var o := open[|open| - 1 - rel];
      Expand(env, o.bt).Some? && LabelAt(LabelsOf(fs), rel) == LabelOf(o.kind, Expand(env, o.bt).value)
  {
    LabelsAt(fs);
  }
}
