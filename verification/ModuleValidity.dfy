/**
 What a module's bodies are checked against, read off the module itself: its types, its index spaces,
 and for each function its own signature and locals. A function's bytes are a valid body in the module
 if and only if the calls that made them would be accepted there, whether or not they were checked.
 */
module ModuleValidity {
  import opened Ints
  import opened Syntax
  import opened Codec
  import opened Encoding
  import opened Binary
  import opened Body
  import opened Reading
  import opened Typing
  import opened Machine
  import opened Acceptance
  import opened Growth
  import opened ModuleFormat
  import opened IndexSpaces
  import opened Validation
  import opened Emission

  // The features a module is built for; the bytes do not carry them.
  datatype Features = Features(memory64: bool, multiMemory: bool)

  // The index space of a kind: the imports, then the definitions.
  function SpaceIn(m: ModuleData, kind: ExternKind): (r: seq<Desc>)
    ensures forall k | 0 <= k < |r| :: KindOfDesc(r[k]) == kind
  {
    OfKind(DescsOf(m.imports), kind) +
    match kind
    case ExternFunc => seq(|m.funcs|, k requires 0 <= k < |m.funcs| => FuncDesc(m.funcs[k].sig))
    case ExternTable =>
      seq(|m.tables|, k requires 0 <= k < |m.tables| => TableDesc(m.tables[k].elem, m.tables[k].limits))
    case ExternMem => seq(|m.mems|, k requires 0 <= k < |m.mems| => MemDesc(m.mems[k]))
    case ExternGlobal => seq(|m.globals|, k requires 0 <= k < |m.globals| => GlobalDesc(m.globals[k].gtype))
  }

  // What the bodies of a module may refer to.
  function DeclsIn(f: Features, m: ModuleData): Decls {
    var fs, gs, ts := SpaceIn(m, ExternFunc), SpaceIn(m, ExternGlobal), SpaceIn(m, ExternTable);
    Decls(m.types, seq(|fs|, k requires 0 <= k < |fs| => fs[k].sig),
          seq(|gs|, k requires 0 <= k < |gs| => gs[k].gtype), seq(|ts|, k requires 0 <= k < |ts| => ts[k].elem),
          if f.memory64 then I64 else I32, f.multiMemory)
  }

  // The environment of function k's body, whose further locals are these runs.
  function BodyEnv(f: Features, m: ModuleData, k: nat, runs: seq<LocalRun>): Env
    requires k < |m.funcs| && m.funcs[k].sig < |m.types|
  {
    var sig := m.types[m.funcs[k].sig];
    DeclsIn(f, m).In(sig.params + ExpandRuns(runs), sig.results)
  }

  predicate HasSig(m: ModuleData, k: nat) {
    k < |m.funcs| && m.funcs[k].sig < |m.types|
  }

  // What Finish leaves in the two buffers of a body.
  function BodyBytesOf(runs: seq<LocalRun>, evs: seq<Event>): Bytes
    requires IsU32(|runs|)
  {
    EncLocals(runs) + (EncEvents(evs) + [0x0B])
  }

  // Function k's body is what an emitter wrote for these calls; CheckedAs, which its validator accepts.
  predicate EmittedAs(table: Table, m: ModuleData, k: nat, runs: seq<LocalRun>, evs: seq<Event>) {
    && k < |m.funcs| && IsU32(|runs|) && IsU32(TotalLocals(runs))
    && m.funcs[k].body == BodyBytesOf(runs, evs) && EventsOk(table, evs)
  }

  predicate CheckedAs(table: Table, f: Features, m: ModuleData, k: nat, runs: seq<LocalRun>, evs: seq<Event>)
    requires HasSig(m, k)
  {
    EmittedAs(table, m, k, runs, evs) && Accepts(BodyEnv(f, m, k, runs), evs)
  }

  ghost predicate EmittedAt(table: Table, m: ModuleData, k: nat) {
    exists runs, evs :: EmittedAs(table, m, k, runs, evs)
  }

  // Function k's body is the bytes of calls that are accepted in the module's own environment.
  ghost predicate CheckedAt(table: Table, f: Features, m: ModuleData, k: nat) {
    HasSig(m, k) && exists runs, evs :: CheckedAs(table, f, m, k, runs, evs)
  }

  // Function k's bytes are those of a body, and nothing else ...
  predicate DecodesAs(table: Table, m: ModuleData, k: nat, runs: seq<LocalRun>, c: Code) {
    k < |m.funcs| && DecBody(table, m.funcs[k].body) == Some((FuncBody(runs, c), []))
  }

  // ... that is typable in the module's own environment.
  ghost predicate ValidAt(table: Table, f: Features, m: ModuleData, k: nat) {
    HasSig(m, k)
    && exists runs, c :: DecodesAs(table, m, k, runs, c) && TypedBody(false, BodyEnv(f, m, k, runs), c)
  }

  // The bytes of any calls decode to the declared runs and the body the calls spell, if they spell one.
  lemma BodyReads(table: Table, runs: seq<LocalRun>, evs: seq<Event>, b: FuncBody)
    requires TableOk(table) && IsU32(|runs|) && IsU32(TotalLocals(runs)) && EventsOk(table, evs)
    ensures DecBody(table, BodyBytesOf(runs, evs)) == Some((b, [])) <==> b.runs == runs && Flatten(b.code) == evs
  {
    forall run | run in runs
      ensures Reads(EncRun, DecRun, run)
    {
      RunReads(run);
    }
    VecRoundTrip(EncRun, DecRun, runs, EncEvents(evs) + [0x0B]);
    DecodesIffSpelt(table, evs, b.code);
  }

  // What an emitter wrote is valid if and only if the validator accepts the calls, in the environment the
  // module gives the function.
  lemma ValidIffAccepted(table: Table, f: Features, m: ModuleData, k: nat, runs: seq<LocalRun>, evs: seq<Event>)
    requires TableOk(table) && HasSig(m, k) && EmittedAs(table, m, k, runs, evs)
    ensures ValidAt(table, f, m, k) <==> Accepts(BodyEnv(f, m, k, runs), evs)
  {
    if ValidAt(table, f, m, k) {
      var runs', c :| DecodesAs(table, m, k, runs', c) && TypedBody(false, BodyEnv(f, m, k, runs'), c);
      BodyReads(table, runs, evs, FuncBody(runs', c));
      AcceptsIffTyped(BodyEnv(f, m, k, runs), c);
    }
    if Accepts(BodyEnv(f, m, k, runs), evs) {
      var c := AcceptedIsBody(BodyEnv(f, m, k, runs), evs);
      AcceptsIffTyped(BodyEnv(f, m, k, runs), c);
      BodyReads(table, runs, evs, FuncBody(runs, c));
      assert DecodesAs(table, m, k, runs, c);
    }
  }

  lemma ValidIffChecked(table: Table, f: Features, m: ModuleData, k: nat)
    requires TableOk(table) && HasSig(m, k) && EmittedAt(table, m, k)
    ensures ValidAt(table, f, m, k) <==> CheckedAt(table, f, m, k)
  {
    if ValidAt(table, f, m, k) {
      var runs, evs :| EmittedAs(table, m, k, runs, evs);
      ValidIffAccepted(table, f, m, k, runs, evs);
      assert CheckedAs(table, f, m, k, runs, evs);
    }
    if CheckedAt(table, f, m, k) {
      var runs, evs :| CheckedAs(table, f, m, k, runs, evs);
      ValidIffAccepted(table, f, m, k, runs, evs);
    }
  }

  /* Growing. */

  // More was declared, and function k is the same.
  predicate Keeps(m: ModuleData, n: ModuleData, k: nat) {
    && m.types <= n.types && (forall kind :: SpaceIn(m, kind) <= SpaceIn(n, kind))
    && k < |m.funcs| && k < |n.funcs| && m.funcs[k] == n.funcs[k]
  }

  lemma DeclsGrow(f: Features, m: ModuleData, n: ModuleData, locals: seq<ValType>, results: seq<ValType>)
    requires m.types <= n.types && forall kind :: SpaceIn(m, kind) <= SpaceIn(n, kind)
    ensures EnvGrows(DeclsIn(f, m).In(locals, results), DeclsIn(f, n).In(locals, results))
  {
    assert SpaceIn(m, ExternFunc) <= SpaceIn(n, ExternFunc);
    assert SpaceIn(m, ExternGlobal) <= SpaceIn(n, ExternGlobal);
    assert SpaceIn(m, ExternTable) <= SpaceIn(n, ExternTable);
  }

  // A body that was checked stays checked while the module grows.
  lemma CheckedStays(table: Table, f: Features, m: ModuleData, n: ModuleData, k: nat)
    requires CheckedAt(table, f, m, k) && Keeps(m, n, k)
    ensures CheckedAt(table, f, n, k)
  {
    var runs, evs :| CheckedAs(table, f, m, k, runs, evs);
    var sig := m.types[m.funcs[k].sig];
    DeclsGrow(f, m, n, sig.params + ExpandRuns(runs), sig.results);
    AcceptsGrows(BodyEnv(f, m, k, runs), BodyEnv(f, n, k, runs), evs);
    assert CheckedAs(table, f, n, k, runs, evs);
  }
}
