/**
 The writers of the assembler: each appends the encoding of one entity, or of one section's vector by
 a loop over its entries, to a buffer.
 */
module Writers {
  import opened Ints
  import opened Syntax
  import opened Leb128
  import opened Buffers
  import opened Codec
  import opened Encoding
  import opened Binary
  import opened Names

  /* Lengths are 64-bit sizes in the library. */

  predicate FuncTypeFits(t: FuncType) {
    IsU64(|t.params|) && IsU64(|t.results|)
  }

  predicate ImportFits(i: Import) {
    IsU64(|i.mod|) && IsU64(|i.name|)
  }

  predicate ExportFits(e: Export) {
    IsU64(|e.name|)
  }

  predicate ElemFits(e: ElemSeg) {
    IsU64(|e.funcs|)
  }

  predicate DataFits(d: DataSeg) {
    IsU64(|d.bytes|)
  }

  predicate NamedFits(n: Named) {
    IsU64(|n.name|)
  }

  // One more entry behind a counted run of entries.
  lemma OneMore<T>(before: Bytes, count: Bytes, f: T -> Bytes, xs: seq<T>, i: nat)
    requires i < |xs|
    ensures before + (count + EncAll(f, xs[..i])) + f(xs[i]) == before + (count + EncAll(f, xs[..i + 1]))
  {
    assert xs[..i + 1] == xs[..i] + [xs[i]];
    EncAllSnoc(f, xs[..i], xs[i]);
    Assoc(before, count + EncAll(f, xs[..i]), f(xs[i]));
    Assoc(count, EncAll(f, xs[..i]), f(xs[i]));
  }

  /* Entities. */

  method PutName(b: CodeBuffer, s: Bytes)
    requires b.Valid() && IsU64(|s|)
    modifies b, b.data
    ensures b.Appended(EncBytes(s))
  {
    Assoc(b.Contents(), ULEB(|s|), s);
    b.PutULEB(|s|);
    b.PutBytes(s);
  }

  method PutLimits(b: CodeBuffer, min: u64, max: Option<u64>, shared: bool, is64: bool)
    requires b.Valid()
    modifies b, b.data
    ensures b.Appended(EncLimits(Limits(min, max, shared, is64)))
  {
    ghost var tail := if max.Some? then ULEB(max.value) else [];
    var flags: byte := 0;
    if max.Some? {
      flags := flags + 0x01;
    }
    if shared {
      flags := flags + 0x02;
    }
    if is64 {
      flags := flags + 0x04;
    }
    assert flags == LimitFlags(Limits(min, max, shared, is64));
    Assoc(b.Contents(), [flags], ULEB(min));
    Assoc(b.Contents(), [flags] + ULEB(min), tail);
    b.PutU8(flags);
    b.PutULEB(min);
    if max.Some? {
      b.PutULEB(max.value);
    }
  }

  method PutConstExpr(b: CodeBuffer, e: ConstExpr)
    requires b.Valid()
    modifies b, b.data
    ensures b.Appended(EncInit(e))
  {
    Assoc(b.Contents(), [InitByte(e)] + InitArg(e), [0x0B]);
    PutInit(b, e);
    b.PutU8(0x0B);
  }

  // The expression without its end.
  method PutInit(b: CodeBuffer, e: ConstExpr)
    requires b.Valid()
    modifies b, b.data
    ensures b.Appended([InitByte(e)] + InitArg(e))
  {
    Assoc(b.Contents(), [InitByte(e)], InitArg(e));
    match e {
      case InitI32(n) =>
        b.PutU8(0x41);
        b.PutSLEB(n);
      case InitI64(n) =>
        b.PutU8(0x42);
        b.PutSLEB(n);
      case InitF32(bits) =>
        b.PutU8(0x43);
        b.PutF32(bits);
      case InitF64(bits) =>
        b.PutU8(0x44);
        b.PutF64(bits);
      case InitGlobal(g) =>
        b.PutU8(0x23);
        b.PutULEB(g);
      case InitNull(t) =>
        b.PutU8(0xD0);
        b.PutU8(TypeByte(t));
      case InitFunc(f) =>
        b.PutU8(0xD2);
        b.PutULEB(f);
    }
  }

  method PutTypes(b: CodeBuffer, ts: seq<ValType>)
    requires b.Valid() && IsU64(|ts|)
    modifies b, b.data
    ensures b.Appended(EncVec(EncType, ts))
  {
    b.PutULEB(|ts|);
    for i := 0 to |ts|
      invariant b.Appended(ULEB(|ts|) + EncAll(EncType, ts[..i]))
    {
      OneMore(old(b.Contents()), ULEB(|ts|), EncType, ts, i);
      b.PutU8(TypeByte(ts[i]));
    }
    assert ts[..|ts|] == ts;
  }

  method PutFuncType(b: CodeBuffer, t: FuncType)
    requires b.Valid() && FuncTypeFits(t)
    modifies b, b.data
    ensures b.Appended(EncFuncType(t))
  {
    Assoc(b.Contents(), [0x60], EncVec(EncType, t.params));
    Assoc(b.Contents(), [0x60] + EncVec(EncType, t.params), EncVec(EncType, t.results));
    b.PutU8(0x60);
    PutTypes(b, t.params);
    PutTypes(b, t.results);
  }

  method PutGlobalType(b: CodeBuffer, g: GlobalType)
    requires b.Valid()
    modifies b, b.data
    ensures b.Appended(EncGlobalType(g))
  {
    var mutability: byte := if g.mutable then 0x01 else 0x00;
    Assoc(b.Contents(), EncType(g.t), [mutability]);
    b.PutU8(TypeByte(g.t));
    b.PutU8(mutability);
  }

  method PutTable(b: CodeBuffer, t: TableDef)
    requires b.Valid()
    modifies b, b.data
    ensures b.Appended(EncTable(t))
  {
    Assoc(b.Contents(), EncType(t.elem), EncLimits(t.limits));
    b.PutU8(TypeByte(t.elem));
    PutLimits(b, t.limits.min, t.limits.max, t.limits.shared, t.limits.is64);
  }

  method PutDesc(b: CodeBuffer, d: Desc)
    requires b.Valid()
    modifies b, b.data
    ensures b.Appended(EncDesc(d))
  {
    match d {
      case FuncDesc(sig) => b.PutULEB(sig);
      case TableDesc(elem, lim) => PutTable(b, TableDef(elem, lim));
      case MemDesc(lim) => PutLimits(b, lim.min, lim.max, lim.shared, lim.is64);
      case GlobalDesc(g) => PutGlobalType(b, g);
    }
  }

  method PutImport(b: CodeBuffer, i: Import)
    requires b.Valid() && ImportFits(i)
    modifies b, b.data
    ensures b.Appended(EncImport(i))
  {
    ghost var start, mod, name, kind := b.Contents(), EncBytes(i.mod), EncBytes(i.name), [DescByte(i.desc)];
    Assoc(start, mod, name);
    Assoc(start, mod + name, kind);
    Assoc(start, mod + name + kind, EncDesc(i.desc));
    PutName(b, i.mod);
    PutName(b, i.name);
    b.PutU8(DescByte(i.desc));
    PutDesc(b, i.desc);
  }

  method PutGlobal(b: CodeBuffer, g: GlobalDef)
    requires b.Valid()
    modifies b, b.data
    ensures b.Appended(EncGlobal(g))
  {
    Assoc(b.Contents(), EncGlobalType(g.gtype), EncInit(g.init));
    PutGlobalType(b, g.gtype);
    PutConstExpr(b, g.init);
  }

  method PutExport(b: CodeBuffer, e: Export)
    requires b.Valid() && ExportFits(e)
    modifies b, b.data
    ensures b.Appended(EncExport(e))
  {
    Assoc(b.Contents(), EncBytes(e.name), [KindOf(e.kind)]);
    Assoc(b.Contents(), EncBytes(e.name) + [KindOf(e.kind)], ULEB(e.index));
    PutName(b, e.name);
    b.PutU8(KindOf(e.kind));
    b.PutULEB(e.index);
  }

  method PutFuncs(b: CodeBuffer, fs: seq<u32>)
    requires b.Valid() && IsU64(|fs|)
    modifies b, b.data
    ensures b.Appended(EncVec(EncIdx, fs))
  {
    b.PutULEB(|fs|);
    for i := 0 to |fs|
      invariant b.Appended(ULEB(|fs|) + EncAll(EncIdx, fs[..i]))
    {
      OneMore(old(b.Contents()), ULEB(|fs|), EncIdx, fs, i);
      b.PutULEB(fs[i]);
    }
    assert fs[..|fs|] == fs;
  }

  // An active segment of a table other than the first.
  method PutTableElem(b: CodeBuffer, table: u32, offset: ConstExpr, fs: seq<u32>)
    requires b.Valid() && IsU64(|fs|)
    modifies b, b.data
    ensures b.Appended(ULEB(2) + ULEB(table) + EncInit(offset) + [0x00] + EncVec(EncIdx, fs))
  {
    ghost var start, place := b.Contents(), ULEB(2) + ULEB(table);
    Assoc(start, ULEB(2), ULEB(table));
    Assoc(start, place, EncInit(offset));
    Assoc(start, place + EncInit(offset), [0x00]);
    Assoc(start, place + EncInit(offset) + [0x00], EncVec(EncIdx, fs));
    b.PutULEB(2);
    b.PutULEB(table);
    PutConstExpr(b, offset);
    b.PutU8(0x00);
    PutFuncs(b, fs);
  }

  method PutElem(b: CodeBuffer, e: ElemSeg)
    requires b.Valid() && ElemFits(e)
    modifies b, b.data
    ensures b.Appended(EncElem(e))
  {
    ghost var start, funcs := b.Contents(), EncVec(EncIdx, e.funcs);
    match e {
      case PassiveElem(_, fs) =>
        Assoc(start, ULEB(1), [0x00]);
        Assoc(start, ULEB(1) + [0x00], funcs);
        b.PutULEB(1);
        b.PutU8(0x00);
        PutFuncs(b, fs);
      case ActiveElem(table, offset, fs) =>
        if table == 0 {
          Assoc(start, ULEB(0), EncInit(offset));
          Assoc(start, ULEB(0) + EncInit(offset), funcs);
          b.PutULEB(0);
          PutConstExpr(b, offset);
          PutFuncs(b, fs);
        } else {
          PutTableElem(b, table, offset, fs);
        }
    }
  }

  method PutData(b: CodeBuffer, d: DataSeg)
    requires b.Valid() && DataFits(d)
    modifies b, b.data
    ensures b.Appended(EncData(d))
  {
    ghost var start, bytes := b.Contents(), EncBytes(d.bytes);
    match d {
      case PassiveData(bs) =>
        b.PutULEB(1);
        PutName(b, bs);
        Assoc(start, ULEB(1), bytes);
      case ActiveData(mem, offset, bs) =>
        if mem == 0 {
          b.PutULEB(0);
          PutConstExpr(b, offset);
          PutName(b, bs);
          Assoc(start, ULEB(0), EncInit(offset));
          Assoc(start, ULEB(0) + EncInit(offset), bytes);
        } else {
          b.PutULEB(2);
          b.PutULEB(mem);
          PutConstExpr(b, offset);
          PutName(b, bs);
          Assoc(start, ULEB(2), ULEB(mem));
          Assoc(start, ULEB(2) + ULEB(mem), EncInit(offset));
          Assoc(start, ULEB(2) + ULEB(mem) + EncInit(offset), bytes);
        }
    }
  }

  /* The vectors of the sections. */

  method PutTypeVec(b: CodeBuffer, types: seq<FuncType>)
    requires b.Valid() && IsU64(|types|) && forall x | x in types :: FuncTypeFits(x)
    modifies b, b.data
    ensures b.Appended(EncVec(EncFuncType, types))
  {
    b.PutULEB(|types|);
    for i := 0 to |types|
      invariant b.Appended(ULEB(|types|) + EncAll(EncFuncType, types[..i]))
    {
      OneMore(old(b.Contents()), ULEB(|types|), EncFuncType, types, i);
      PutFuncType(b, types[i]);
    }
    assert types[..|types|] == types;
  }

  method PutImportVec(b: CodeBuffer, imports: seq<Import>)
    requires b.Valid() && IsU64(|imports|) && forall x | x in imports :: ImportFits(x)
    modifies b, b.data
    ensures b.Appended(EncVec(EncImport, imports))
  {
    b.PutULEB(|imports|);
    for i := 0 to |imports|
      invariant b.Appended(ULEB(|imports|) + EncAll(EncImport, imports[..i]))
    {
      OneMore(old(b.Contents()), ULEB(|imports|), EncImport, imports, i);
      PutImport(b, imports[i]);
    }
    assert imports[..|imports|] == imports;
  }

  method PutTableVec(b: CodeBuffer, tables: seq<TableDef>)
    requires b.Valid() && IsU64(|tables|)
    modifies b, b.data
    ensures b.Appended(EncVec(EncTable, tables))
  {
    b.PutULEB(|tables|);
    for i := 0 to |tables|
      invariant b.Appended(ULEB(|tables|) + EncAll(EncTable, tables[..i]))
    {
      OneMore(old(b.Contents()), ULEB(|tables|), EncTable, tables, i);
      PutTable(b, tables[i]);
    }
    assert tables[..|tables|] == tables;
  }

  method PutMemVec(b: CodeBuffer, mems: seq<Limits>)
    requires b.Valid() && IsU64(|mems|)
    modifies b, b.data
    ensures b.Appended(EncVec(EncLimits, mems))
  {
    b.PutULEB(|mems|);
    for i := 0 to |mems|
      invariant b.Appended(ULEB(|mems|) + EncAll(EncLimits, mems[..i]))
    {
      OneMore(old(b.Contents()), ULEB(|mems|), EncLimits, mems, i);
      PutLimits(b, mems[i].min, mems[i].max, mems[i].shared, mems[i].is64);
    }
    assert mems[..|mems|] == mems;
  }

  method PutGlobalVec(b: CodeBuffer, globals: seq<GlobalDef>)
    requires b.Valid() && IsU64(|globals|)
    modifies b, b.data
    ensures b.Appended(EncVec(EncGlobal, globals))
  {
    b.PutULEB(|globals|);
    for i := 0 to |globals|
      invariant b.Appended(ULEB(|globals|) + EncAll(EncGlobal, globals[..i]))
    {
      OneMore(old(b.Contents()), ULEB(|globals|), EncGlobal, globals, i);
      PutGlobal(b, globals[i]);
    }
    assert globals[..|globals|] == globals;
  }

  method PutExportVec(b: CodeBuffer, exports: seq<Export>)
    requires b.Valid() && IsU64(|exports|) && forall x | x in exports :: ExportFits(x)
    modifies b, b.data
    ensures b.Appended(EncVec(EncExport, exports))
  {
    b.PutULEB(|exports|);
    for i := 0 to |exports|
      invariant b.Appended(ULEB(|exports|) + EncAll(EncExport, exports[..i]))
    {
      OneMore(old(b.Contents()), ULEB(|exports|), EncExport, exports, i);
      PutExport(b, exports[i]);
    }
    assert exports[..|exports|] == exports;
  }

  method PutElemVec(b: CodeBuffer, elems: seq<ElemSeg>)
    requires b.Valid() && IsU64(|elems|) && forall x | x in elems :: ElemFits(x)
    modifies b, b.data
    ensures b.Appended(EncVec(EncElem, elems))
  {
    b.PutULEB(|elems|);
    for i := 0 to |elems|
      invariant b.Appended(ULEB(|elems|) + EncAll(EncElem, elems[..i]))
    {
      OneMore(old(b.Contents()), ULEB(|elems|), EncElem, elems, i);
      PutElem(b, elems[i]);
    }
    assert elems[..|elems|] == elems;
  }

  method PutDataVec(b: CodeBuffer, datas: seq<DataSeg>)
    requires b.Valid() && IsU64(|datas|) && forall x | x in datas :: DataFits(x)
    modifies b, b.data
    ensures b.Appended(EncVec(EncData, datas))
  {
    b.PutULEB(|datas|);
    for i := 0 to |datas|
      invariant b.Appended(ULEB(|datas|) + EncAll(EncData, datas[..i]))
    {
      OneMore(old(b.Contents()), ULEB(|datas|), EncData, datas, i);
      PutData(b, datas[i]);
    }
    assert datas[..|datas|] == datas;
  }
}
