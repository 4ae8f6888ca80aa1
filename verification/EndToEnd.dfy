/**
 The parts together: bodies are emitted against the module they are for, defined and assembled, and the
 bytes decode to a module whose bodies are valid in that module exactly if the validator accepts them.
 */
module EndToEnd {
  import opened Ints
  import opened Syntax
  import opened Codec
  import opened Encoding
  import opened Binary
  import opened Body
  import opened Reading
  import opened Typing
  import opened Liveness
  import opened Machine
  import opened Acceptance
  import opened Safety
  import opened Contexts
  import opened Specification
  import opened Conformance
  import opened Departures
  import opened Names
  import opened ModuleFormat
  import opened DataCount
  import opened IndexSpaces
  import opened Validation
  import opened Emission
  import opened SectionWriter
  import opened Assembly
  import opened ModuleValidity

  /* Assembled modules. */

  lemma NamesAside(table: Table, f: Features, m: ModuleData, names: NameData, k: nat)
    ensures ValidAt(table, f, m.(names := names), k) <==> ValidAt(table, f, m, k)
  {
    var n := m.(names := names);
    assert DeclsIn(f, n) == DeclsIn(f, m);
    if ValidAt(table, f, m, k) {
      var runs, c :| DecodesAs(table, m, k, runs, c) && TypedBody(false, BodyEnv(f, m, k, runs), c);
      assert DecodesAs(table, n, k, runs, c);
    }
    if ValidAt(table, f, n, k) {
      var runs, c :| DecodesAs(table, n, k, runs, c) && TypedBody(false, BodyEnv(f, n, k, runs), c);
      assert DecodesAs(table, m, k, runs, c);
    }
  }

  // A module of emitted bodies decodes section by section, and there each body is valid if and only if the
  // validator accepts the calls that made it. By the whole grammar it decodes if and only if each body is
  // one, and some data segment is passive or no body names a data segment.
  lemma AssembledModuleIsValid(table: Table, f: Features, m: ModuleData)
    requires TableOk(table) && ModuleOk(m)
    requires forall k: nat | k < |m.funcs| :: HasSig(m, k) && EmittedAt(table, m, k)
    ensures DecModule(EncModule(m)).Some?
    ensures var d := DecModule(EncModule(m)).value;
      |d.funcs| == |m.funcs| && forall k: nat | k < |m.funcs| :: ValidAt(table, f, d, k) <==> CheckedAt(table, f, m, k)
    ensures DecWholeModule(table, EncModule(m)) ==
            if BodiesDecode(table, m) && (HasPassive(m.datas) || !CodeNamesData(table, m))
            then DecModule(EncModule(m)) else None
  {
    ModuleRoundTrip(m);
    WholeModuleIff(table, m);
    forall k: nat | k < |m.funcs|
      ensures ValidAt(table, f, m.(names := SortedNames(m.names)), k) <==> CheckedAt(table, f, m, k)
    {
      NamesAside(table, f, m, SortedNames(m.names), k);
      ValidIffChecked(table, f, m, k);
    }
  }

  // The functions a module refers to outside its bodies: those may be referenced inside them.
  function RefsIn(m: ModuleData): set<u32> {
    (set x | x in m.exports && x.kind == ExternFunc :: x.index)
    + (set e, x | e in m.elems && x in e.funcs :: x)
    + (set g | g in m.globals && g.init.InitFunc? :: g.init.func)
    + (set e | e in m.elems && e.ActiveElem? && e.offset.InitFunc? :: e.offset.func)
    + (set d | d in m.datas && d.ActiveData? && d.offset.InitFunc? :: d.offset.func)
  }

  // An active segment holds function references.
  function ElemTypes(elems: seq<ElemSeg>): (r: seq<RefType>)
    ensures |r| == |elems|
  {
    seq(|elems|, k requires 0 <= k < |elems| => if elems[k].ActiveElem? then FuncRef else elems[k].t)
  }

  // What the specification checks function k's body against.
  function ContextIn(f: Features, m: ModuleData, k: nat, runs: seq<LocalRun>): Context
    requires HasSig(m, k)
  {
    Context(BodyEnv(f, m, k, runs), RefsIn(m), ElemTypes(m.elems), |SpaceIn(m, ExternMem)|, |m.datas|)
  }

  // A valid body of a module runs safely exactly if every instruction a run can reach is guarded, and is
  // valid by the specification exactly if every instruction is permitted.
  lemma ValidBodyRuns(table: Table, f: Features, m: ModuleData, k: nat, runs: seq<LocalRun>, c: Code, ctx: Context)
    requires HasSig(m, k) && ValidAt(table, f, m, k) && DecodesAs(table, m, k, runs, c)
    requires ctx == ContextIn(f, m, k, runs)
    ensures Safe(ctx, c) <==> LiveGuarded(ctx, [ctx.env.results], START, c)
    ensures SpecBody(ctx, c) <==> Permitted(ctx, [ctx.env.results], START, c)
  {
    AcceptsIffTyped(ctx.env, c);
    AcceptedRunsSafely(ctx, c);
    ValidIffPermitted(ctx, c);
  }

  /* The module under construction. */

  // What its emitters are told is what its bytes will say.
  lemma DeclaredIsSnapshot(mod: Module)
    requires mod.Typed()
    ensures forall kind :: mod.Space(kind) == SpaceIn(mod.Snapshot(), kind)
    ensures mod.Declared() == DeclsIn(Features(mod.memory64, mod.multiMemory), mod.Snapshot())
    ensures forall k: nat | k < |mod.funcs| :: HasSig(mod.Snapshot(), k)
  {
    var space := mod.Space(ExternFunc);
    forall k: nat | k < |mod.funcs|
      ensures mod.funcs[k].sig < |mod.interner.types|
    {
      assert space[|space| - |mod.funcs| + k] == FuncDesc(mod.funcs[k].sig);
    }
  }

  // The emitter was given this module's declarations and function k's signature.
  ghost predicate Serves(mod: Module, k: nat, e: FunctionEmitter)
    requires mod.Typed() && k < |mod.funcs| && HasSig(mod.Snapshot(), k)
    reads mod, mod.interner, mod.interner.slots, e
  {
    && e.decls == mod.Declared() && FuncType(e.params, e.results) == mod.interner.types[mod.funcs[k].sig]
  }

  ghost function FeaturesOf(mod: Module): Features {
    Features(mod.memory64, mod.multiMemory)
  }

  // Then what the emitter checks against is what the module's bytes will say.
  lemma ServesBodyEnv(mod: Module, k: nat, e: FunctionEmitter)
    requires mod.Typed() && k < |mod.funcs| && HasSig(mod.Snapshot(), k) && Serves(mod, k, e) && e.Valid()
    ensures e.FullEnv() == BodyEnv(FeaturesOf(mod), mod.Snapshot(), k, RunsOf(e.history))
  {
    DeclaredIsSnapshot(mod);
  }

  lemma DefinedIsEmitted(table: Table, m: ModuleData, k: nat, runs: seq<LocalRun>, evs: seq<Event>, b: BodyBytes)
    requires k < |m.funcs| && IsU32(|runs|) && IsU32(TotalLocals(runs)) && EventsOk(table, evs)
    requires m.funcs[k].body == b.locals + b.code
    requires b.locals == EncLocals(runs) && b.code == EncEvents(evs) + [0x0B]
    ensures EmittedAs(table, m, k, runs, evs)
  {}

  // The body that two finished buffers make becomes that of function k; nothing else changes.
  method DefineBody(ghost table: Table, mod: Module, k: nat, body: FunctionBody, ghost runs: seq<LocalRun>,
    ghost evs: seq<Event>)
    requires mod.Valid() && body.Valid() && k < |mod.funcs| && EventsOk(table, evs)
    requires IsU32(|runs|) && IsU32(TotalLocals(runs))
    requires body.LocalDecls() == EncLocals(runs) && body.Code() == EncEvents(evs) + [0x0B]
    modifies mod`funcs, mod`phase2
    ensures mod.Valid() && forall kind :: mod.Space(kind) == old(mod.Space(kind))
    ensures Defines(old(mod.funcs), mod.funcs, k) && mod.funcs[k].body.Some?
    ensures EmittedAs(table, mod.Snapshot(), k, runs, evs)
  {
    mod.DefineFunction(mod.impFuncs + k, body);
    DefinedIsEmitted(table, mod.Snapshot(), k, runs, evs, BodyBytes(body.LocalDecls(), body.Code()));
  }

  // Only function k got a body.
  predicate Defines(before: seq<DefinedFunc>, after: seq<DefinedFunc>, k: nat) {
    && |after| == |before| && (k < |after| ==> after[k].sig == before[k].sig)
    && forall j | 0 <= j < |after| && j != k :: after[j] == before[j]
  }

  // A finished body becomes that of function k. With validation it is let through if and only if its calls
  // are accepted in the environment the module's own bytes give function k.
  method DefineFinished(ghost table: Table, mod: Module, k: nat, e: FunctionEmitter) returns (r: Checked<()>)
    requires mod.Valid() && mod.Typed() && e.Valid() && e.control == [] && |e.localRuns| < 0x1_0000_0000
    requires e.Repr() !! {mod, mod.interner, mod.interner.slots}
    requires k < |mod.funcs| && HasSig(mod.Snapshot(), k) && Serves(mod, k, e)
    requires EventsOk(table, EventsOf(e.history))
    modifies mod`funcs, mod`phase2, e.Repr()
    ensures mod.Valid() && mod.Typed() && forall kind :: mod.Space(kind) == old(mod.Space(kind))
    ensures r.Accepted? <==>
              (e.validate ==>
                 old(Accepts(BodyEnv(FeaturesOf(mod), mod.Snapshot(), k, RunsOf(e.history)), EventsOf(e.history))))
    ensures r.Accepted? ==>
              && EmittedAs(table, mod.Snapshot(), k, old(RunsOf(e.history)), old(EventsOf(e.history)))
              && Defines(old(mod.funcs), mod.funcs, k) && mod.funcs[k].body.Some?
    ensures !r.Accepted? ==> mod.funcs == old(mod.funcs)
  {
    ghost var runs, evs := RunsOf(e.history), EventsOf(e.history);
    ServesBodyEnv(mod, k, e);
    ExpandedLength(runs);
    var body := e.Finish();
    if body.Accepted? {
      DefineBody(table, mod, k, body.value, runs, evs);
    }
    r := if body.Accepted? then Accepted(()) else Rejected;
  }

  /* A module built with validating emitters. */

  // Every function that has a body was checked, and the check stands against the module as it is now.
  ghost predicate AllChecked(table: Table, f: Features, m: ModuleData, funcs: seq<DefinedFunc>) {
    forall k: nat | k < |funcs| && funcs[k].body.Some? :: CheckedAt(table, f, m, k)
  }

  lemma SpacesAgree(m: ModuleData, funcs: seq<DefinedFunc>)
    requires m.funcs == IndexSpaces.Finished(funcs)
    ensures forall kind :: SpaceIn(m, kind) == SpaceOf(m.imports, funcs, m.tables, m.mems, m.globals, kind)
  {}

  // Declaring between two definitions, which adds types, entities at the end of their spaces and functions
  // without a body, takes no check back.
  lemma ChecksStay(
    table: Table, f: Features, m: ModuleData, n: ModuleData, before: seq<DefinedFunc>, after: seq<DefinedFunc>)
    requires m.funcs == IndexSpaces.Finished(before) && n.funcs == IndexSpaces.Finished(after)
    requires m.types <= n.types && forall kind :: SpaceIn(m, kind) <= SpaceIn(n, kind)
    requires before <= after && forall k | |before| <= k < |after| :: after[k].body.None?
    requires AllChecked(table, f, m, before)
    ensures AllChecked(table, f, n, after)
  {
    forall k: nat | k < |after| && after[k].body.Some?
      ensures CheckedAt(table, f, n, k)
    {
      assert after[k] == before[k];
      CheckedStays(table, f, m, n, k);
    }
  }

  // A checked body joins the others.
  lemma DefiningChecks(
    table: Table, f: Features, m: ModuleData, n: ModuleData, before: seq<DefinedFunc>, after: seq<DefinedFunc>,
    k: nat, runs: seq<LocalRun>, evs: seq<Event>)
    requires m.funcs == IndexSpaces.Finished(before) && n == m.(funcs := IndexSpaces.Finished(after))
    requires Defines(before, after, k) && HasSig(m, k)
    requires EmittedAs(table, n, k, runs, evs) && Accepts(BodyEnv(f, m, k, runs), evs)
    requires AllChecked(table, f, m, before)
    ensures AllChecked(table, f, n, after)
  {
    SpacesAgree(m, before);
    SpacesAgree(n, after);
    SameSignatures(m.imports, before, after, m.tables, m.mems, m.globals);
    forall j: nat | j < |after| && after[j].body.Some?
      ensures CheckedAt(table, f, n, j)
    {
      if j == k {
        assert DeclsIn(f, m) == DeclsIn(f, n);
        assert CheckedAs(table, f, n, k, runs, evs);
      } else {
        CheckedStays(table, f, m, n, j);
      }
    }
  }

  // The same with a validating emitter, in a module all of whose bodies so far were checked.
  method DefineChecked(ghost table: Table, mod: Module, k: nat, e: FunctionEmitter) returns (r: Checked<()>)
    requires mod.Valid() && mod.Typed() && e.Valid() && e.validate && e.control == [] && |e.localRuns| < 0x1_0000_0000
    requires e.Repr() !! {mod, mod.interner, mod.interner.slots}
    requires k < |mod.funcs| && HasSig(mod.Snapshot(), k) && Serves(mod, k, e)
    requires EventsOk(table, EventsOf(e.history))
    requires AllChecked(table, FeaturesOf(mod), mod.Snapshot(), mod.funcs)
    modifies mod`funcs, mod`phase2, e.Repr()
    ensures mod.Valid() && mod.Typed() && Defines(old(mod.funcs), mod.funcs, k)
    ensures AllChecked(table, FeaturesOf(mod), mod.Snapshot(), mod.funcs)
    ensures r.Accepted? ==> mod.funcs[k].body.Some?
    ensures !r.Accepted? ==> mod.funcs == old(mod.funcs)
  {
    ghost var f, m, before := FeaturesOf(mod), mod.Snapshot(), mod.funcs;
    ghost var runs, evs := RunsOf(e.history), EventsOf(e.history);
    r := DefineFinished(table, mod, k, e);
    assert mod.Snapshot() == m.(funcs := IndexSpaces.Finished(mod.funcs));
    assert AllChecked(table, f, mod.Snapshot(), mod.funcs) by {
      if r.Accepted? {
        DefiningChecks(table, f, m, mod.Snapshot(), before, mod.funcs, k, runs, evs);
      }
    }
  }

  // The bytes decode, by the whole grammar, to a module of n functions, each with a body that is valid in
  // that module.
  ghost predicate ValidModule(table: Table, f: Features, bytes: Bytes, n: nat) {
    match DecWholeModule(table, bytes)
    case None => false
    case Some(d) => |d.funcs| == n && forall k: nat | k < n :: ValidAt(table, f, d, k)
  }

  lemma CheckedIsEmitted(table: Table, f: Features, m: ModuleData, k: nat)
    requires CheckedAt(table, f, m, k)
    ensures HasSig(m, k) && EmittedAt(table, m, k)
  {
    var runs, evs :| CheckedAs(table, f, m, k, runs, evs);
    assert EmittedAs(table, m, k, runs, evs);
  }

  lemma AllAreEmitted(table: Table, f: Features, m: ModuleData)
    requires forall k: nat | k < |m.funcs| :: CheckedAt(table, f, m, k)
    ensures forall k: nat | k < |m.funcs| :: HasSig(m, k) && EmittedAt(table, m, k)
  {
    forall k: nat | k < |m.funcs|
      ensures HasSig(m, k) && EmittedAt(table, m, k)
    {
      CheckedIsEmitted(table, f, m, k);
    }
  }

  // What is checked is a body.
  lemma CheckedIsBody(table: Table, f: Features, m: ModuleData, k: nat)
    requires TableOk(table) && CheckedAt(table, f, m, k)
    ensures IsBody(table, m.funcs[k].body)
  {
    CheckedIsEmitted(table, f, m, k);
    ValidIffChecked(table, f, m, k);
    var runs, c :| DecodesAs(table, m, k, runs, c);
  }

  lemma AllAreBodies(table: Table, f: Features, m: ModuleData)
    requires TableOk(table) && forall k: nat | k < |m.funcs| :: CheckedAt(table, f, m, k)
    ensures BodiesDecode(table, m)
  {
    forall k: nat | k < |m.funcs|
      ensures IsBody(table, m.funcs[k].body)
    {
      CheckedIsBody(table, f, m, k);
    }
  }

  lemma CheckedModuleIsValid(table: Table, f: Features, m: ModuleData)
    requires TableOk(table) && ModuleOk(m) && forall k: nat | k < |m.funcs| :: CheckedAt(table, f, m, k)
    ensures ValidModule(table, f, EncModule(m), |m.funcs|) <==> HasPassive(m.datas) || !CodeNamesData(table, m)
  {
    AllAreEmitted(table, f, m);
    AllAreBodies(table, f, m);
    AssembledModuleIsValid(table, f, m);
  }

  lemma AllAreChecked(table: Table, f: Features, m: ModuleData, funcs: seq<DefinedFunc>)
    requires m.funcs == IndexSpaces.Finished(funcs) && AllDefined(funcs) && AllChecked(table, f, m, funcs)
    ensures forall k: nat | k < |m.funcs| :: CheckedAt(table, f, m, k)
  {}

  // If every function was defined through a validating emitter, the module's bytes are a module in which
  // every body is valid, if and only if some data segment is passive or no body names a data segment.
  method AssembleChecked(ghost table: Table, mod: Module) returns (bytes: Option<Bytes>)
    requires TableOk(table) && mod.Valid() && AllChecked(table, FeaturesOf(mod), mod.Snapshot(), mod.funcs)
    requires SizesFit(mod.Snapshot()) && ModuleOk(mod.Snapshot())
    ensures bytes.Some? <==> AllDefined(mod.funcs)
    ensures bytes.Some? ==>
              (ValidModule(table, FeaturesOf(mod), bytes.value, |mod.funcs|)
               <==> HasPassive(mod.datas) || !CodeNamesData(table, mod.Snapshot()))
  {
    ghost var m, f := mod.Snapshot(), FeaturesOf(mod);
    bytes := mod.TryAssemble();
    if bytes.Some? {
      AllAreChecked(table, f, m, mod.funcs);
      CheckedModuleIsValid(table, f, m);
    }
  }

  /* The library says how many data segments there are only if one of them is passive. */

  lemma DropIsChecked(table: Table, f: Features, m: ModuleData, k: nat, x: u32)
    requires x < |m.datas| && HasSig(m, k) && m.types[m.funcs[k].sig].results == []
    requires EmittedAs(table, m, k, [], [Do(DataDrop(x))])
    ensures CheckedAt(table, f, m, k) && SpecBody(ContextIn(f, m, k, []), Line([DataDrop(x)]))
  {
    DropIsFine(ContextIn(f, m, k, []), x);
    assert CheckedAs(table, f, m, k, [], [Do(DataDrop(x))]);
  }

  lemma DropNamesData(table: Table, f: Features, m: ModuleData, k: nat, x: u32)
    requires TableOk(table) && CheckedAt(table, f, m, k) && EmittedAs(table, m, k, [], [Do(DataDrop(x))])
    ensures CodeNamesData(table, m)
  {
    CheckedIsBody(table, f, m, k);
    NamesDataIffCalled(table, m, k, [], [Do(DataDrop(x))]);
    assert NamesData([Do(DataDrop(x))][0]);
  }

  // data.drop of a segment, all segments being active, is accepted and valid by the specification, and the
  // bytes are no module: they name a data segment before they say how many there are.
  lemma DropWithoutCount(table: Table, f: Features, m: ModuleData, k: nat, x: u32)
    requires TableOk(table) && ModuleOk(m) && !HasPassive(m.datas) && x < |m.datas| && HasSig(m, k)
    requires m.types[m.funcs[k].sig].results == [] && EmittedAs(table, m, k, [], [Do(DataDrop(x))])
    ensures CheckedAt(table, f, m, k) && SpecBody(ContextIn(f, m, k, []), Line([DataDrop(x)]))
    ensures DecModule(EncModule(m)).Some? && DecWholeModule(table, EncModule(m)) == None
  {
    DropIsChecked(table, f, m, k, x);
    DropNamesData(table, f, m, k, x);
    WholeModuleIff(table, m);
    ModuleRoundTrip(m);
  }
}
