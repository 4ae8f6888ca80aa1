/**
 A module may go on declaring while bodies are emitted. Declarations are only added at the end of their
 index spaces, and then everything that was accepted stays accepted, with the same frames.
 */
module Growth {
  import opened Syntax
  import opened Typing
  import opened Machine
  import opened Acceptance

  // More is declared; the body is checked against the same locals and results.
  predicate EnvGrows(a: Env, b: Env) {
    && a.types <= b.types && a.funcs <= b.funcs && a.globals <= b.globals && a.tables <= b.tables
    && a.locals == b.locals && a.results == b.results && a.addr == b.addr && a.multiMemory == b.multiMemory
  }

  lemma EffectGrows(a: Env, b: Env, labels: LabelStack, op: Op)
    requires EnvGrows(a, b)
    ensures EffectOf(a, labels, op) == Reject || EffectOf(a, labels, op) == EffectOf(b, labels, op)
  {}

  lemma StepGrows(a: Env, b: Env, fs: seq<Frame>, ev: Event)
    requires EnvGrows(a, b) && |fs| >= 1 && Step(a, fs, ev).Some?
    ensures Step(b, fs, ev) == Step(a, fs, ev)
  {
    match ev
    case Do(op) => OpGrows(a, b, fs, op);
    case Start(_, bt) => assert Expand(a, bt) == Expand(b, bt);
    case _ =>
  }

  lemma OpGrows(a: Env, b: Env, fs: seq<Frame>, op: Op)
    requires EnvGrows(a, b) && |fs| >= 1 && StepOp(a, fs, op).Some?
    ensures StepOp(b, fs, op) == StepOp(a, fs, op)
  {
    EffectGrows(a, b, LabelsOf(fs), op);
  }

  lemma {:induction false} RunGrows(a: Env, b: Env, fs: seq<Frame>, evs: seq<Event>)
    requires EnvGrows(a, b) && |fs| >= 1 && Run(a, fs, evs).Some?
    ensures Run(b, fs, evs) == Run(a, fs, evs)
    decreases |evs|
  {
    if evs != [] {
      var init := evs[..|evs| - 1];
      RunGrows(a, b, fs, init);
      StepGrows(a, b, Run(a, fs, init).value, evs[|evs| - 1]);
    }
  }

  lemma AcceptsGrows(a: Env, b: Env, evs: seq<Event>)
    requires EnvGrows(a, b) && Accepts(a, evs)
    ensures Accepts(b, evs)
  {
    RunGrows(a, b, Initial(a), evs);
  }

  // The same for a log with declarations of locals in it.
  lemma {:induction false} CallsGrow(a: Env, b: Env, fs: seq<Frame>, calls: seq<Call>)
    requires EnvGrows(a, b) && |fs| >= 1 && RunCalls(a, fs, calls).Some?
    ensures RunCalls(b, fs, calls).Some?
    ensures EnvGrows(RunCalls(a, fs, calls).value.0, RunCalls(b, fs, calls).value.0)
    ensures RunCalls(b, fs, calls).value.0 == b.(locals := RunCalls(a, fs, calls).value.0.locals)
    ensures RunCalls(b, fs, calls).value.1 == RunCalls(a, fs, calls).value.1
    decreases |calls|
  {
    if calls != [] {
      var init, last := calls[..|calls| - 1], calls[|calls| - 1];
      CallsGrow(a, b, fs, init);
      if last.Emit? {
        StepGrows(RunCalls(a, fs, init).value.0, RunCalls(b, fs, init).value.0, RunCalls(a, fs, init).value.1, last.ev);
      }
    }
  }
}
