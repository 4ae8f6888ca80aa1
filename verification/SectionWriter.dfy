/**
 The sections the assembler builds: each in a buffer of its own, and left out when there is nothing to
 put in it.
 */
module SectionWriter {
  import opened Ints
  import opened Syntax
  import opened Leb128
  import opened Buffers
  import opened Codec
  import opened Binary
  import opened Names
  import opened ModuleFormat
  import opened IndexSpaces
  import opened Writers
  import opened NameWriter

  // Sizes fit 64 bits.
  predicate SizesFit(m: ModuleData) {
    && HeadFits(m) && TailFits(m) && NamesFit(m.names)
    && (forall c | c in Sections(m) :: IsU64(|c.body|)) && forall c | c in m.customs :: IsU64(|c.name|)
  }

  predicate HeadFits(m: ModuleData) {
    && IsU64(|m.types|) && (forall x | x in m.types :: FuncTypeFits(x))
    && IsU64(|m.imports|) && (forall x | x in m.imports :: ImportFits(x))
    && IsU64(|m.funcs|) && IsU64(|m.tables|) && IsU64(|m.mems|) && IsU64(|m.globals|)
  }

  predicate TailFits(m: ModuleData) {
    && IsU64(|m.exports|) && (forall x | x in m.exports :: ExportFits(x))
    && IsU64(|m.elems|) && (forall x | x in m.elems :: ElemFits(x))
    && IsU64(|m.datas|) && (forall x | x in m.datas :: DataFits(x))
    && IsU64(|m.funcs|) && forall f | f in m.funcs :: IsU64(|f.body|)
  }

  // A built section is added to the list of sections.
  method EmitSection(secs: seq<Chunk>, id: byte, s: CodeBuffer) returns (r: seq<Chunk>)
    requires s.Valid()
    ensures r == secs + [Chunk(id, s.Contents())]
  {
    r := secs + [Chunk(id, s.Contents())];
  }

  method PutSigVec(b: CodeBuffer, funcs: seq<DefinedFunc>)
    requires b.Valid() && IsU64(|funcs|)
    modifies b, b.data
    ensures b.Appended(EncVec(EncIdx, SigsOf(Finished(funcs))))
  {
    ghost var sigs := SigsOf(Finished(funcs));
    b.PutULEB(|funcs|);
    for i := 0 to |funcs|
      invariant b.Appended(ULEB(|funcs|) + EncAll(EncIdx, sigs[..i]))
    {
      OneMore(old(b.Contents()), ULEB(|funcs|), EncIdx, sigs, i);
      b.PutULEB(funcs[i].sig);
    }
    assert sigs[..|funcs|] == sigs;
  }

  // Each body: its size, then its declarations and its code.
  method PutBodyVec(b: CodeBuffer, funcs: seq<DefinedFunc>)
    requires b.Valid() && IsU64(|funcs|) && AllDefined(funcs) && forall f | f in Finished(funcs) :: IsU64(|f.body|)
    modifies b, b.data
    ensures b.Appended(EncVec(EncBytes, BodiesOf(Finished(funcs))))
  {
    ghost var bodies := BodiesOf(Finished(funcs));
    b.PutULEB(|funcs|);
    for i := 0 to |funcs|
      invariant b.Appended(ULEB(|funcs|) + EncAll(EncBytes, bodies[..i]))
    {
      OneMore(old(b.Contents()), ULEB(|funcs|), EncBytes, bodies, i);
      assert bodies[i] == Finished(funcs)[i].body;
      PutBody(b, funcs[i].body.value);
    }
    assert bodies[..|funcs|] == bodies;
  }

  method PutBody(b: CodeBuffer, body: BodyBytes)
    requires b.Valid() && IsU64(|body.locals + body.code|)
    modifies b, b.data
    ensures b.Appended(EncBytes(body.locals + body.code))
  {
    ghost var start, size := b.Contents(), ULEB(|body.locals| + |body.code|);
    Assoc(start, size, body.locals);
    Assoc(start, size + body.locals, body.code);
    Assoc(size, body.locals, body.code);
    b.PutULEB(|body.locals| + |body.code|);
    b.PutBytes(body.locals);
    b.PutBytes(body.code);
  }

  /* One method a section. */

  method AddTypes(secs: seq<Chunk>, types: seq<FuncType>) returns (r: seq<Chunk>)
    requires IsU64(|types|) && forall x | x in types :: FuncTypeFits(x)
    ensures r == AddVec(secs, 1, EncFuncType, types)
  {
    r := secs;
    if types != [] {
      var s := new CodeBuffer();
      PutTypeVec(s, types);
      assert s.Contents() == EncVec(EncFuncType, types);
      r := EmitSection(secs, 1, s);
    }
  }

  method AddImports(secs: seq<Chunk>, imports: seq<Import>) returns (r: seq<Chunk>)
    requires IsU64(|imports|) && forall x | x in imports :: ImportFits(x)
    ensures r == AddVec(secs, 2, EncImport, imports)
  {
    r := secs;
    if imports != [] {
      var s := new CodeBuffer();
      PutImportVec(s, imports);
      assert s.Contents() == EncVec(EncImport, imports);
      r := EmitSection(secs, 2, s);
    }
  }

  method AddSigs(secs: seq<Chunk>, funcs: seq<DefinedFunc>) returns (r: seq<Chunk>)
    requires IsU64(|funcs|)
    ensures r == AddVec(secs, 3, EncIdx, SigsOf(Finished(funcs)))
  {
    r := secs;
    if funcs != [] {
      var s := new CodeBuffer();
      PutSigVec(s, funcs);
      assert s.Contents() == EncVec(EncIdx, SigsOf(Finished(funcs)));
      r := EmitSection(secs, 3, s);
    }
  }

  method AddTables(secs: seq<Chunk>, tables: seq<TableDef>) returns (r: seq<Chunk>)
    requires IsU64(|tables|)
    ensures r == AddVec(secs, 4, EncTable, tables)
  {
    r := secs;
    if tables != [] {
      var s := new CodeBuffer();
      PutTableVec(s, tables);
      assert s.Contents() == EncVec(EncTable, tables);
      r := EmitSection(secs, 4, s);
    }
  }

  method AddMems(secs: seq<Chunk>, mems: seq<Limits>) returns (r: seq<Chunk>)
    requires IsU64(|mems|)
    ensures r == AddVec(secs, 5, EncLimits, mems)
  {
    r := secs;
    if mems != [] {
      var s := new CodeBuffer();
      PutMemVec(s, mems);
      assert s.Contents() == EncVec(EncLimits, mems);
      r := EmitSection(secs, 5, s);
    }
  }

  method AddGlobals(secs: seq<Chunk>, globals: seq<GlobalDef>) returns (r: seq<Chunk>)
    requires IsU64(|globals|)
    ensures r == AddVec(secs, 6, EncGlobal, globals)
  {
    r := secs;
    if globals != [] {
      var s := new CodeBuffer();
      PutGlobalVec(s, globals);
      assert s.Contents() == EncVec(EncGlobal, globals);
      r := EmitSection(secs, 6, s);
    }
  }

  method AddExports(secs: seq<Chunk>, exports: seq<Export>) returns (r: seq<Chunk>)
    requires IsU64(|exports|) && forall x | x in exports :: ExportFits(x)
    ensures r == AddVec(secs, 7, EncExport, exports)
  {
    r := secs;
    if exports != [] {
      var s := new CodeBuffer();
      PutExportVec(s, exports);
      assert s.Contents() == EncVec(EncExport, exports);
      r := EmitSection(secs, 7, s);
    }
  }

  method AddStart(secs: seq<Chunk>, start: Option<u32>) returns (r: seq<Chunk>)
    ensures r == Add(secs, 8, start.Some?, if start.Some? then ULEB(start.value) else [])
  {
    r := secs;
    if start.Some? {
      var s := new CodeBuffer();
      s.PutULEB(start.value);
      assert s.Contents() == ULEB(start.value);
      r := EmitSection(secs, 8, s);
    }
  }

  method AddElems(secs: seq<Chunk>, elems: seq<ElemSeg>) returns (r: seq<Chunk>)
    requires IsU64(|elems|) && forall x | x in elems :: ElemFits(x)
    ensures r == AddVec(secs, 9, EncElem, elems)
  {
    r := secs;
    if elems != [] {
      var s := new CodeBuffer();
      PutElemVec(s, elems);
      assert s.Contents() == EncVec(EncElem, elems);
      r := EmitSection(secs, 9, s);
    }
  }

  method HasPassiveData(datas: seq<DataSeg>) returns (r: bool)
    ensures r <==> exists k :: 0 <= k < |datas| && datas[k].PassiveData?
  {
    for i := 0 to |datas|
      invariant forall k | 0 <= k < i :: !datas[k].PassiveData?
    {
      if datas[i].PassiveData? {
        return true;
      }
    }
    return false;
  }

  method AddDataCount(secs: seq<Chunk>, datas: seq<DataSeg>) returns (r: seq<Chunk>)
    requires IsU64(|datas|)
    ensures r == Add(secs, 12, HasPassive(datas), ULEB(|datas|))
  {
    r := secs;
    var passive := HasPassiveData(datas);
    if passive {
      var s := new CodeBuffer();
      s.PutULEB(|datas|);
      assert s.Contents() == ULEB(|datas|);
      r := EmitSection(secs, 12, s);
    }
  }

  method AddCode(secs: seq<Chunk>, funcs: seq<DefinedFunc>) returns (r: seq<Chunk>)
    requires IsU64(|funcs|) && AllDefined(funcs) && forall f | f in Finished(funcs) :: IsU64(|f.body|)
    ensures r == AddVec(secs, 10, EncBytes, BodiesOf(Finished(funcs)))
  {
    r := secs;
    if funcs != [] {
      var s := new CodeBuffer();
      PutBodyVec(s, funcs);
      assert s.Contents() == EncVec(EncBytes, BodiesOf(Finished(funcs)));
      r := EmitSection(secs, 10, s);
    }
  }

  method AddDatas(secs: seq<Chunk>, datas: seq<DataSeg>) returns (r: seq<Chunk>)
    requires IsU64(|datas|) && forall x | x in datas :: DataFits(x)
    ensures r == AddVec(secs, 11, EncData, datas)
  {
    r := secs;
    if datas != [] {
      var s := new CodeBuffer();
      PutDataVec(s, datas);
      assert s.Contents() == EncVec(EncData, datas);
      r := EmitSection(secs, 11, s);
    }
  }

  method AddCustom(secs: seq<Chunk>, c: Custom) returns (r: seq<Chunk>)
    requires IsU64(|c.name|)
    ensures r == secs + [EncCustom(c)]
  {
    var s := new CodeBuffer();
    PutName(s, c.name);
    s.PutBytes(c.bytes);
    assert s.Contents() == EncBytes(c.name) + c.bytes;
    r := EmitSection(secs, 0, s);
  }

  // The name section, unless there is nothing to name.
  method AddNames(secs: seq<Chunk>, n: NameData) returns (r: seq<Chunk>)
    requires NoNames(n) || NamesFit(n)
    ensures r == secs + CustomChunks(if NoNames(n) then [] else [Custom(NAME, EncChunks(NameChunks(n)))])
  {
    r := secs;
    if !(n.moduleName == [] && n.funcs == [] && n.locals == [] && n.globals == []) {
      var names := WriteNames(n);
      r := AddCustom(secs, Custom(NAME, names.Contents()));
      OneCustom(Custom(NAME, EncChunks(NameChunks(n))));
    }
  }

  lemma OneCustom(c: Custom)
    ensures CustomChunks([c]) == [EncCustom(c)]
  {}

  method AddCustoms(secs: seq<Chunk>, customs: seq<Custom>) returns (r: seq<Chunk>)
    requires forall c | c in customs :: IsU64(|c.name|)
    ensures r == secs + CustomChunks(customs)
  {
    r := secs;
    for i := 0 to |customs|
      invariant r == secs + CustomChunks(customs[..i])
    {
      assert customs[..i + 1][..i] == customs[..i];
      Assoc(secs, CustomChunks(customs[..i]), [EncCustom(customs[i])]);
      r := AddCustom(r, customs[i]);
    }
    assert customs[..|customs|] == customs;
  }

  lemma CustomChunksAppend(core: seq<Chunk>, a: seq<Custom>, b: seq<Custom>)
    ensures core + CustomChunks(a) + CustomChunks(b) == core + CustomChunks(a + b)
  {
    assert CustomChunks(a) + CustomChunks(b) == CustomChunks(a + b);
  }
}
