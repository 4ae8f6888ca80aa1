/**
 The module: declared entities in their index spaces, bodies filled in later, and the assembler. Each
 index space is the imports of its kind followed by the definitions; because imports come first, that
 is all the declarations of the kind in the order they were made, so a handle never changes meaning.
 */
module Assembly {
  import opened Ints
  import opened Syntax
  import opened Buffers
  import opened Codec
  import opened Binary
  import opened Names
  import opened ModuleFormat
  import opened IndexSpaces
  import opened Interning
  import opened Validation
  import opened Emission
  import opened SectionWriter
  import opened Output

  class Module {
    const memory64: bool
    const multiMemory: bool
    const interner: Interner
    var imports: seq<Import>
    var impFuncs: nat
    var impTables: nat
    var impMems: nat
    var impGlobals: nat
    var funcs: seq<DefinedFunc>
    var tables: seq<TableDef>
    var mems: seq<Limits>
    var globals: seq<GlobalDef>
    var exports: seq<Export>
    var start: Option<u32>
    var datas: seq<DataSeg>
    var elems: seq<ElemSeg>
    var customs: seq<Custom>
    var moduleName: Bytes
    var funcNames: seq<Named>
    var globalNames: seq<Named>
    var localNames: seq<LocalName>
    var phase2: bool

    // Every import and definition, in the order they were declared.
    ghost var declared: seq<Desc>

    // The entities an index of this kind ranges over.
    function Space(kind: ExternKind): (r: seq<Desc>)
      reads this
      ensures forall k | 0 <= k < |r| :: KindOfDesc(r[k]) == kind
    {
      SpaceOf(imports, funcs, tables, mems, globals, kind)
    }

    ghost predicate Counted()
      reads this
    {
      && impFuncs == |OfKind(DescsOf(imports), ExternFunc)| && impTables == |OfKind(DescsOf(imports), ExternTable)|
      && impMems == |OfKind(DescsOf(imports), ExternMem)| && impGlobals == |OfKind(DescsOf(imports), ExternGlobal)|
    }

    ghost predicate Valid()
      reads this, interner, interner.slots
    {
      interner.Valid() && Counted() && forall kind :: Space(kind) == OfKind(declared, kind)
    }

    // Every function was declared with a type that has been interned. Declaring does not ask for it; reading a
    // function's signature does.
    ghost predicate Typed()
      reads this, interner
    {
      SigsBelow(Space(ExternFunc), |interner.types|)
    }

    constructor (memory64: bool, multiMemory: bool, hash: FuncType -> nat)
      ensures Valid() && Typed() && fresh(interner) && fresh(interner.slots) && interner.types == [] && declared == []
      ensures !phase2 && imports == [] && funcs == [] && tables == [] && mems == [] && globals == []
      ensures this.memory64 == memory64 && this.multiMemory == multiMemory
    {
      this.memory64, this.multiMemory := memory64, multiMemory;
      interner := new Interner(hash);
      imports, funcs, tables, mems, globals := [], [], [], [], [];
      impFuncs, impTables, impMems, impGlobals := 0, 0, 0, 0;
      exports, start, datas, elems, customs := [], None, [], [], [];
      moduleName, funcNames, globalNames, localNames := [], [], [], [];
      phase2 := false;
      declared := [];
    }

    // One more entity: the handle is the next index of its space, and no other space changed.
    twostate predicate Declares(d: Desc, index: nat)
      requires old(Valid())
      reads this, interner, interner.slots
    {
      && Valid() && declared == old(declared) + [d]
      && index == |old(Space(KindOfDesc(d)))|
      && forall kind :: Space(kind) == With(old(Space(kind)), kind, d)
    }

    // Imports are kept in one list, whatever their kind.
    method AddImport(i: Import)
      requires Definitions(funcs, tables, mems, globals, KindOfDesc(i.desc)) == []
      modifies `imports, `declared
      ensures imports == old(imports) + [i] && declared == old(declared) + [i.desc]
      ensures forall kind :: Space(kind) == With(old(Space(kind)), kind, i.desc)
      ensures forall kind :: OfKind(declared, kind) == With(OfKind(old(declared), kind), kind, i.desc)
      ensures forall kind :: |OfKind(DescsOf(imports), kind)| ==
                |OfKind(DescsOf(old(imports)), kind)| + if KindOfDesc(i.desc) == kind then 1 else 0
    {
      imports := imports + [i];
      declared := declared + [i.desc];
      assert DescsOf(imports) == DescsOf(old(imports)) + [i.desc];
      forall kind
        ensures OfKind(DescsOf(imports), kind) == With(OfKind(DescsOf(old(imports)), kind), kind, i.desc)
        ensures OfKind(declared, kind) == With(OfKind(old(declared), kind), kind, i.desc)
      {
        OfKindSnoc(DescsOf(old(imports)), i.desc, kind);
        OfKindSnoc(old(declared), i.desc, kind);
      }
    }

    method ImportFunction(mod: Bytes, name: Bytes, sig: u32) returns (f: nat)
      requires Valid() && funcs == []
      modifies `imports, `impFuncs, `declared
      ensures Declares(FuncDesc(sig), f) && imports == old(imports) + [Import(mod, name, FuncDesc(sig))]
      ensures Typed() <==> old(Typed()) && sig < |interner.types|
    {
      SigsBelowSnoc(Space(ExternFunc), sig, |interner.types|);
      f := impFuncs;
      AddImport(Import(mod, name, FuncDesc(sig)));
      impFuncs := impFuncs + 1;
      assert Counted();
    }

    method ImportTable(mod: Bytes, name: Bytes, elem: RefType, min: u64, max: Option<u64>) returns (t: nat)
      requires Valid() && tables == []
      modifies `imports, `impTables, `declared
      ensures Declares(TableDesc(elem, Limits(min, max, false, false)), t)
      ensures imports == old(imports) + [Import(mod, name, TableDesc(elem, Limits(min, max, false, false)))]
    {
      t := impTables;
      AddImport(Import(mod, name, TableDesc(elem, Limits(min, max, false, false))));
      impTables := impTables + 1;
      assert Counted();
    }

    method ImportMemory(mod: Bytes, name: Bytes, min: u64, max: Option<u64>, shared: bool) returns (m: nat)
      requires Valid() && mems == []
      modifies `imports, `impMems, `declared
      ensures Declares(MemDesc(Limits(min, max, shared, memory64)), m)
      ensures imports == old(imports) + [Import(mod, name, MemDesc(Limits(min, max, shared, memory64)))]
    {
      m := impMems;
      AddImport(Import(mod, name, MemDesc(Limits(min, max, shared, memory64))));
      impMems := impMems + 1;
      assert Counted();
    }

    method ImportGlobal(mod: Bytes, name: Bytes, t: ValType, mutable: bool) returns (g: nat)
      requires Valid() && globals == []
      modifies `imports, `impGlobals, `declared
      ensures Declares(GlobalDesc(GlobalType(t, mutable)), g)
      ensures imports == old(imports) + [Import(mod, name, GlobalDesc(GlobalType(t, mutable)))]
    {
      g := impGlobals;
      AddImport(Import(mod, name, GlobalDesc(GlobalType(t, mutable))));
      impGlobals := impGlobals + 1;
      assert Counted();
    }

    // A definition was put at the end of its list.
    ghost method AddDefinition(d: Desc)
      modifies `declared
      ensures declared == old(declared) + [d]
      ensures forall kind :: OfKind(declared, kind) == With(OfKind(old(declared), kind), kind, d)
    {
      declared := declared + [d];
      forall kind
        ensures OfKind(declared, kind) == With(OfKind(old(declared), kind), kind, d)
      {
        OfKindSnoc(old(declared), d, kind);
      }
    }

    method DeclareFunction(sig: u32) returns (f: nat)
      requires Valid() && !phase2
      modifies `funcs, `declared
      ensures Declares(FuncDesc(sig), f) && funcs == old(funcs) + [DefinedFunc(sig, None)]
      ensures Typed() <==> old(Typed()) && sig < |interner.types|
    {
      SigsBelowSnoc(Space(ExternFunc), sig, |interner.types|);
      f := impFuncs + |funcs|;
      FuncsGrow(imports, funcs, tables, mems, globals, DefinedFunc(sig, None));
      funcs := funcs + [DefinedFunc(sig, None)];
      AddDefinition(FuncDesc(sig));
    }

    method Table(elem: RefType, min: u64, max: Option<u64>) returns (t: nat)
      requires Valid()
      modifies `tables, `declared
      ensures Declares(TableDesc(elem, Limits(min, max, false, false)), t)
      ensures tables == old(tables) + [TableDef(elem, Limits(min, max, false, false))]
    {
      t := impTables + |tables|;
      TablesGrow(imports, funcs, tables, mems, globals, TableDef(elem, Limits(min, max, false, false)));
      tables := tables + [TableDef(elem, Limits(min, max, false, false))];
      AddDefinition(TableDesc(elem, Limits(min, max, false, false)));
    }

    method Memory(min: u64, max: Option<u64>, shared: bool) returns (m: nat)
      requires Valid()
      modifies `mems, `declared
      ensures Declares(MemDesc(Limits(min, max, shared, memory64)), m)
      ensures mems == old(mems) + [Limits(min, max, shared, memory64)]
    {
      m := impMems + |mems|;
      MemsGrow(imports, funcs, tables, mems, globals, Limits(min, max, shared, memory64));
      mems := mems + [Limits(min, max, shared, memory64)];
      AddDefinition(MemDesc(Limits(min, max, shared, memory64)));
    }

    method Global(t: ValType, mutable: bool, init: ConstExpr) returns (g: nat)
      requires Valid()
      modifies `globals, `declared
      ensures Declares(GlobalDesc(GlobalType(t, mutable)), g)
      ensures globals == old(globals) + [GlobalDef(GlobalType(t, mutable), init)]
    {
      g := impGlobals + |globals|;
      GlobalsGrow(imports, funcs, tables, mems, globals, GlobalDef(GlobalType(t, mutable), init));
      globals := globals + [GlobalDef(GlobalType(t, mutable), init)];
      AddDefinition(GlobalDesc(GlobalType(t, mutable)));
    }

    /* Queries. */

    // The n-th import of a kind, if there are that many.
    method NthImport(kind: ExternKind, n: nat) returns (r: Option<Import>)
      ensures r.Some? <==> n < |OfKind(DescsOf(imports), kind)|
      ensures r.Some? ==> r.value in imports && r.value.desc == OfKind(DescsOf(imports), kind)[n]
    {
      ghost var ds := DescsOf(imports);
      var c := 0;
      for i := 0 to |imports|
        invariant c == |OfKind(ds[..i], kind)| <= n
      {
        NextOfKind(ds, i, kind);
        if KindOfDesc(imports[i].desc) == kind {
          if c == n {
            return Some(imports[i]);
          }
          c := c + 1;
        }
      }
      assert ds[..|imports|] == ds;
      return None;
    }

    method FuncSig(f: nat) returns (sig: u32)
      requires Counted() && f < |Space(ExternFunc)|
      ensures sig == Space(ExternFunc)[f].sig
    {
      if f < impFuncs {
        var i := NthImport(ExternFunc, f);
        return i.value.desc.sig;
      }
      return funcs[f - impFuncs].sig;
    }

    method GlobalValType(g: nat) returns (t: ValType)
      requires Counted() && g < |Space(ExternGlobal)|
      ensures t == Space(ExternGlobal)[g].gtype.t
    {
      if g < impGlobals {
        var i := NthImport(ExternGlobal, g);
        return i.value.desc.gtype.t;
      }
      return globals[g - impGlobals].gtype.t;
    }

    method GlobalMut(g: nat) returns (mutable: bool)
      requires Counted() && g < |Space(ExternGlobal)|
      ensures mutable == Space(ExternGlobal)[g].gtype.mutable
    {
      if g < impGlobals {
        var i := NthImport(ExternGlobal, g);
        return i.value.desc.gtype.mutable;
      }
      return globals[g - impGlobals].gtype.mutable;
    }

    method TableElem(t: nat) returns (elem: RefType)
      requires Counted() && t < |Space(ExternTable)|
      ensures elem == Space(ExternTable)[t].elem
    {
      if t < impTables {
        var i := NthImport(ExternTable, t);
        return i.value.desc.elem;
      }
      return tables[t - impTables].elem;
    }

    function FuncCount(): (n: nat)
      requires Counted()
      reads this
      ensures n == |Space(ExternFunc)|
    {
      impFuncs + |funcs|
    }

    function GlobalCount(): (n: nat)
      requires Counted()
      reads this
      ensures n == |Space(ExternGlobal)|
    {
      impGlobals + |globals|
    }

    function TableCount(): (n: nat)
      requires Counted()
      reads this
      ensures n == |Space(ExternTable)|
    {
      impTables + |tables|
    }

    // What a validator is to know of this module: what FuncSig, GlobalValType, GlobalMut and TableElem answer.
    function Declared(): (d: Decls)
      requires Typed()
      reads this, interner
      ensures DeclsOk(d) && d.types == interner.types
      ensures |d.funcs| == |Space(ExternFunc)| && |d.globals| == |Space(ExternGlobal)|
      ensures |d.tables| == |Space(ExternTable)|
      ensures forall k | 0 <= k < |d.funcs| :: d.funcs[k] == Space(ExternFunc)[k].sig
      ensures forall k | 0 <= k < |d.globals| :: d.globals[k] == Space(ExternGlobal)[k].gtype
      ensures forall k | 0 <= k < |d.tables| :: d.tables[k] == Space(ExternTable)[k].elem
      ensures d.addr == (if memory64 then I64 else I32) && d.multiMemory == multiMemory
    {
      var fs, gs, ts := Space(ExternFunc), Space(ExternGlobal), Space(ExternTable);
      Decls(interner.types, seq(|fs|, k requires 0 <= k < |fs| => fs[k].sig),
            seq(|gs|, k requires 0 <= k < |gs| => gs[k].gtype), seq(|ts|, k requires 0 <= k < |ts| => ts[k].elem),
            if memory64 then I64 else I32, multiMemory)
    }

    // An emitter for a body of the given signature.
    method NewEmitter(validate: bool, sig: nat) returns (e: FunctionEmitter)
      requires Typed() && sig < |interner.types| && |interner.types[sig].params| < 0x1_0000_0000
      ensures fresh(e) && fresh(e.Repr()) && e.Valid() && e.validate == validate && e.history == []
      ensures e.decls == Declared() && FuncType(e.params, e.results) == interner.types[sig]
      ensures e.control == [] && e.localRuns == []
    {
      e := new FunctionEmitter(validate, Declared(), interner.types[sig].params, interner.types[sig].results);
    }

    /* The rest of the declarations. */

    // Interned types keep their indices, so what was declared with one still stands.
    method InternType(params: seq<ValType>, results: seq<ValType>) returns (t: nat)
      requires Valid()
      modifies interner, interner.slots
      ensures Valid() && t < |interner.types| && interner.types[t] == FuncType(params, results)
      ensures interner.types == Intern(old(interner.types), FuncType(params, results))
      ensures t == FirstIndex(old(interner.types), FuncType(params, results))
      ensures interner.slots == old(interner.slots) || fresh(interner.slots)
      ensures old(Typed()) ==> Typed()
    {
      t := interner.GetIndex(FuncType(params, results));
      InternedAt(old(interner.types), FuncType(params, results));
    }

    method ExportEntity(name: Bytes, kind: ExternKind, index: u32)
      modifies `exports
      ensures exports == old(exports) + [Binary.Export.Export(name, kind, index)]
    {
      exports := exports + [Binary.Export.Export(name, kind, index)];
    }

    method SetStart(f: u32)
      modifies `start
      ensures start == Some(f)
    {
      start := Some(f);
    }

    method AddActiveData(mem: u32, offset: ConstExpr, bytes: Bytes)
      modifies `datas
      ensures datas == old(datas) + [ActiveData(mem, offset, bytes)]
    {
      datas := datas + [ActiveData(mem, offset, bytes)];
    }

    method AddPassiveData(bytes: Bytes) returns (d: nat)
      modifies `datas
      ensures datas == old(datas) + [PassiveData(bytes)] && d == |old(datas)|
    {
      d := |datas|;
      datas := datas + [PassiveData(bytes)];
    }

    method AddActiveElem(table: u32, offset: ConstExpr, fs: seq<u32>)
      modifies `elems
      ensures elems == old(elems) + [ActiveElem(table, offset, fs)]
    {
      elems := elems + [ActiveElem(table, offset, fs)];
    }

    method AddPassiveElem(t: RefType, fs: seq<u32>) returns (e: nat)
      modifies `elems
      ensures elems == old(elems) + [PassiveElem(t, fs)] && e == |old(elems)|
    {
      e := |elems|;
      elems := elems + [PassiveElem(t, fs)];
    }

    method CustomSection(name: Bytes, bytes: Bytes)
      modifies `customs
      ensures customs == old(customs) + [Custom(name, bytes)]
    {
      customs := customs + [Custom(name, bytes)];
    }

    method SetFuncName(f: u32, name: Bytes)
      modifies `funcNames
      ensures funcNames == old(funcNames) + [Named(f, name)]
    {
      funcNames := funcNames + [Named(f, name)];
    }

    method SetGlobalName(g: u32, name: Bytes)
      modifies `globalNames
      ensures globalNames == old(globalNames) + [Named(g, name)]
    {
      globalNames := globalNames + [Named(g, name)];
    }

    method SetLocalName(f: u32, local: u32, name: Bytes)
      modifies `localNames
      ensures localNames == old(localNames) + [LocalName(f, local, name)]
    {
      localNames := localNames + [LocalName(f, local, name)];
    }

    method SetModuleName(name: Bytes)
      modifies `moduleName
      ensures moduleName == name
    {
      moduleName := name;
    }

    /* Bodies. */

    // The body belongs to the function alone; nothing else about the module changes.
    method DefineFunction(f: nat, body: FunctionBody)
      requires Valid() && body.Valid() && impFuncs <= f < impFuncs + |funcs|
      modifies `funcs, `phase2
      ensures Valid() && phase2 && forall kind :: Space(kind) == old(Space(kind))
      ensures funcs == Define(old(funcs), Definition(f - impFuncs, BodyBytes(body.LocalDecls(), body.Code())))
    {
      phase2 := true;
      var i := f - impFuncs;
      ghost var before := funcs;
      funcs := funcs[i := DefinedFunc(funcs[i].sig, Some(BodyBytes(body.LocalDecls(), body.Code())))];
      SameSignatures(imports, before, funcs, tables, mems, globals);
    }

    method FindError() returns (missing: Option<nat>)
      ensures missing.None? <==> AllDefined(funcs)
      ensures missing.Some? ==> missing.value < |funcs| && funcs[missing.value].body.None?
    {
      for i := 0 to |funcs|
        invariant forall k | 0 <= k < i :: funcs[k].body.Some?
      {
        if funcs[i].body.None? {
          return Some(i);
        }
      }
      return None;
    }

    /* Assembly. */

    ghost function NameTable(): NameData
      reads this
    {
      NameData(moduleName, funcNames, localNames, globalNames)
    }

    // The module as the value its bytes stand for.
    ghost function Snapshot(): ModuleData
      reads this, interner
    {
      ModuleData(interner.types, imports, Finished(funcs), tables, mems, globals, exports, start, elems, datas,
                 NameTable(), customs)
    }

    // The bytes are of this module: everything declared, defined and named is read back from them.
    ghost predicate Describes(bytes: Bytes)
      reads this, interner
    {
      && DecModule(bytes).Some?
      && var d := DecModule(bytes).value;
         && d.types == interner.types && d.imports == imports && d.tables == tables && d.mems == mems
         && d.globals == globals && d.exports == exports && d.start == start && d.elems == elems && d.datas == datas
         && d.customs == customs && DefinesAll(d.funcs) && NamesAll(d.names)
    }

    ghost predicate DefinesAll(fs: seq<FuncDef>)
      reads this
    {
      && |fs| == |funcs|
      && forall k | 0 <= k < |funcs| ::
           && funcs[k].body.Some? && fs[k].sig == funcs[k].sig
           && fs[k].body == funcs[k].body.value.locals + funcs[k].body.value.code
    }

    ghost predicate NamesAll(n: NameData)
      reads this
    {
      && n.moduleName == moduleName && multiset(n.funcs) == multiset(funcNames)
      && multiset(n.locals) == multiset(localNames) && multiset(n.globals) == multiset(globalNames)
    }

    lemma ReadsBack()
      requires AllDefined(funcs) && ModuleOk(Snapshot())
      ensures Describes(EncModule(Snapshot()))
    {
      ModuleRoundTrip(Snapshot());
      SortedKeeps(NameTable());
    }

    method Head() returns (secs: seq<Chunk>)
      requires HeadFits(Snapshot())
      ensures secs == HeadSections(Snapshot())
    {
      secs := AddTypes([], interner.types);
      secs := AddImports(secs, imports);
      secs := AddSigs(secs, funcs);
      secs := AddTables(secs, tables);
      secs := AddMems(secs, mems);
      secs := AddGlobals(secs, globals);
    }

    // The data count comes before the code that may refer to data segments.
    method Tail(head: seq<Chunk>) returns (secs: seq<Chunk>)
      requires TailFits(Snapshot()) && AllDefined(funcs)
      ensures secs == TailSections(head, Snapshot())
    {
      secs := AddExports(head, exports);
      secs := AddStart(secs, start);
      secs := AddElems(secs, elems);
      secs := AddDataCount(secs, datas);
      secs := AddCode(secs, funcs);
      secs := AddDatas(secs, datas);
    }

    method AllSections() returns (secs: seq<Chunk>)
      requires AllDefined(funcs) && SizesFit(Snapshot())
      ensures secs == Sections(Snapshot()) && forall c | c in secs :: IsU64(|c.body|)
    {
      secs := Head();
      secs := Tail(secs);
      ghost var core := secs;
      secs := AddNames(secs, NameData(moduleName, funcNames, localNames, globalNames));
      secs := AddCustoms(secs, customs);
      CustomChunksAppend(
        core, if NoNames(NameTable()) then [] else [Custom(NAME, EncChunks(NameChunks(NameTable())))], customs);
    }

    // The bytes of the module, in a buffer that held nothing: one reservation, and at most one further growth.
    method AssembleInto(out: CodeBuffer)
      requires AllDefined(funcs) && SizesFit(Snapshot()) && out.Valid() && out.Contents() == []
      modifies out, out.data
      ensures out.Valid() && out.Contents() == old(EncModule(Snapshot()))
      ensures |out.Contents()| >= 8 && out.Contents()[..8] == [0x00, 0x61, 0x73, 0x6D, 0x01, 0x00, 0x00, 0x00]
      ensures out.data == old(out.data) || fresh(out.data)
      ensures out.growths <= old(out.growths) + 2
    {
      HasPreamble(Snapshot());
      var secs := AllSections();
      WriteModule(out, secs);
    }

    method Assemble() returns (bytes: Bytes)
      requires AllDefined(funcs) && SizesFit(Snapshot())
      ensures bytes == old(EncModule(Snapshot()))
      ensures |bytes| >= 8 && bytes[..8] == [0x00, 0x61, 0x73, 0x6D, 0x01, 0x00, 0x00, 0x00]
    {
      ghost var m := Snapshot();
      var out := new CodeBuffer();
      assert Snapshot() == m;
      AssembleInto(out);
      return out.Contents();
    }

    // The module's bytes, unless some function was declared but never defined.
    method TryAssemble() returns (bytes: Option<Bytes>)
      requires SizesFit(Snapshot())
      ensures bytes == if AllDefined(funcs) then Some(old(EncModule(Snapshot()))) else None
      ensures bytes.Some? ==> |bytes.value| >= 8 && bytes.value[..8] == [0x00, 0x61, 0x73, 0x6D, 0x01, 0x00, 0x00, 0x00]
      ensures bytes.Some? && ModuleOk(Snapshot()) ==> Describes(bytes.value)
    {
      var missing := FindError();
      if missing.Some? {
        return None;
      }
      var all := Assemble();
      if ModuleOk(Snapshot()) {
        ReadsBack();
      }
      return Some(all);
    }
  }
}
