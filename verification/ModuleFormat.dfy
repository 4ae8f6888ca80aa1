/**
 Whole modules as bytes (section 5.5.16 of the WebAssembly Core Specification 2.0): the sections in
 their required order, a decoder that checks the order, and the proof that it recovers everything.
 */
module ModuleFormat {
  import opened Ints
  import opened Syntax
  import opened Leb128
  import opened Codec
  import opened Binary
  import opened Names

  datatype FuncDef = FuncDef(sig: u32, body: Bytes)
  datatype Custom = Custom(name: Bytes, bytes: Bytes)

  datatype ModuleData = ModuleData(
    types: seq<FuncType>, imports: seq<Import>, funcs: seq<FuncDef>, tables: seq<TableDef>,
    mems: seq<Limits>, globals: seq<GlobalDef>, exports: seq<Export>, start: Option<u32>,
    elems: seq<ElemSeg>, datas: seq<DataSeg>, names: NameData, customs: seq<Custom>)

  const MAGIC: Bytes := [0x00, 0x61, 0x73, 0x6D, 0x01, 0x00, 0x00, 0x00]

  // The name of the name section.
  const NAME: Bytes := [0x6E, 0x61, 0x6D, 0x65]

  /* Encoding. */

  function SigsOf(fs: seq<FuncDef>): (r: seq<u32>)
    ensures |r| == |fs| && forall k | 0 <= k < |fs| :: r[k] == fs[k].sig
  {
    if fs == [] then [] else SigsOf(fs[..|fs| - 1]) + [fs[|fs| - 1].sig]
  }

  function BodiesOf(fs: seq<FuncDef>): (r: seq<Bytes>)
    ensures |r| == |fs| && forall k | 0 <= k < |fs| :: r[k] == fs[k].body
  {
    if fs == [] then [] else BodiesOf(fs[..|fs| - 1]) + [fs[|fs| - 1].body]
  }

  predicate HasPassive(ds: seq<DataSeg>) {
    exists k :: 0 <= k < |ds| && ds[k].PassiveData?
  }

  // A section that holds one vector, left out when the vector is empty.
  function AddVec<T(==)>(cs: seq<Chunk>, id: byte, f: T -> Bytes, xs: seq<T>): seq<Chunk> {
    Add(cs, id, xs != [], EncVec(f, xs))
  }

  // Sections 1 to 6, before the ones that refer to function indices.
  function HeadSections(m: ModuleData): seq<Chunk> {
    var c1 := AddVec([], 1, EncFuncType, m.types);
    var c2 := AddVec(c1, 2, EncImport, m.imports);
    var c3 := AddVec(c2, 3, EncIdx, SigsOf(m.funcs));
    var c4 := AddVec(c3, 4, EncTable, m.tables);
    var c5 := AddVec(c4, 5, EncLimits, m.mems);
    AddVec(c5, 6, EncGlobal, m.globals)
  }

  // Data count comes before code, so that code can be checked in one pass.
  function TailSections(cs: seq<Chunk>, m: ModuleData): seq<Chunk> {
    var c7 := AddVec(cs, 7, EncExport, m.exports);
    var c8 := Add(c7, 8, m.start.Some?, if m.start.Some? then ULEB(m.start.value) else []);
    var c9 := AddVec(c8, 9, EncElem, m.elems);
    var c12 := Add(c9, 12, HasPassive(m.datas), ULEB(|m.datas|));
    var c10 := AddVec(c12, 10, EncBytes, BodiesOf(m.funcs));
    AddVec(c10, 11, EncData, m.datas)
  }

  function EncCustom(c: Custom): Chunk {
    Chunk(0, EncBytes(c.name) + c.bytes)
  }

  function CustomChunks(customs: seq<Custom>): (r: seq<Chunk>)
    ensures |r| == |customs| && forall k | 0 <= k < |r| :: r[k] == EncCustom(customs[k])
  {
    if customs == [] then [] else CustomChunks(customs[..|customs| - 1]) + [EncCustom(customs[|customs| - 1])]
  }

  // The names are one more custom section, before the caller's own.
  function AllCustoms(m: ModuleData): seq<Custom> {
    (if NoNames(m.names) then [] else [Custom(NAME, EncChunks(NameChunks(m.names)))]) + m.customs
  }

  function Sections(m: ModuleData): seq<Chunk> {
    TailSections(HeadSections(m), m) + CustomChunks(AllCustoms(m))
  }

  function EncModule(m: ModuleData): Bytes {
    MAGIC + EncChunks(Sections(m))
  }

  // Every module starts with the magic number and version 1.
  lemma HasPreamble(m: ModuleData)
    ensures |EncModule(m)| >= 8 && EncModule(m)[..8] == [0x00, 0x61, 0x73, 0x6D, 0x01, 0x00, 0x00, 0x00]
  {
    assert EncModule(m)[..8] == MAGIC;
  }

  /* Decoding. */

  // The place of a section in the required order.
  function Rank(id: byte): int {
    if id <= 9 then id as int else if id == 12 then 10 else id as int + 1
  }

  // Sections other than custom ones come at most once and in order.
  predicate InOrder(cs: seq<Chunk>) {
    && (forall k | 0 <= k < |cs| :: cs[k].id <= 12)
    && forall i, j | 0 <= i < j < |cs| :: cs[i].id != 0 && cs[j].id != 0 ==> Rank(cs[i].id) < Rank(cs[j].id)
  }

  function CustomsIn(cs: seq<Chunk>): Option<seq<Custom>> {
    if cs == [] then Some([])
    else
      var last := cs[|cs| - 1];
      match CustomsIn(cs[..|cs| - 1])
      case None => None
      case Some(init) =>
        if last.id != 0 then Some(init)
        else match DecName(last.body) case None => None case Some((name, bytes)) => Some(init + [Custom(name, bytes)])
  }

  function DecStart(section: Option<Bytes>): Option<Option<u32>> {
    match section
    case None => Some(None)
    case Some(bs) =>
      match DecIdx(bs) case None => None case Some((f, rest)) => if rest == [] then Some(Some(f)) else None
  }

  // A data count, if present, is the number of data segments.
  predicate CountOk(section: Option<Bytes>, n: nat) {
    section.None? || (DecIdx(section.value).Some? && DecIdx(section.value).value.0 == n
                      && DecIdx(section.value).value.1 == [])
  }

  function Zip(sigs: seq<u32>, bodies: seq<Bytes>): (r: seq<FuncDef>)
    requires |sigs| == |bodies|
    ensures |r| == |sigs| && forall k | 0 <= k < |r| :: r[k] == FuncDef(sigs[k], bodies[k])
  {
    seq(|sigs|, k requires 0 <= k < |sigs| => FuncDef(sigs[k], bodies[k]))
  }

  datatype Head = Head(
    types: seq<FuncType>, imports: seq<Import>, sigs: seq<u32>, tables: seq<TableDef>,
    mems: seq<Limits>, globals: seq<GlobalDef>)

  datatype Tail = Tail(
    exports: seq<Export>, start: Option<u32>, elems: seq<ElemSeg>, bodies: seq<Bytes>, datas: seq<DataSeg>)

  function DecHead(cs: seq<Chunk>): Option<Head> {
    var (t, i, s) := (DecWhole(DecFuncType, Lookup(cs, 1)), DecWhole(DecImport, Lookup(cs, 2)),
                      DecWhole(DecIdx, Lookup(cs, 3)));
    var (b, m, g) := (DecWhole(DecTable, Lookup(cs, 4)), DecWhole(DecLimits, Lookup(cs, 5)),
                      DecWhole(DecGlobal, Lookup(cs, 6)));
    if t.None? || i.None? || s.None? || b.None? || m.None? || g.None? then None
    else Some(Head(t.value, i.value, s.value, b.value, m.value, g.value))
  }

  function DecTail(cs: seq<Chunk>): Option<Tail> {
    var (x, s, e) := (DecWhole(DecExport, Lookup(cs, 7)), DecStart(Lookup(cs, 8)), DecWhole(DecElem, Lookup(cs, 9)));
    var (b, d) := (DecWhole(DecBytes, Lookup(cs, 10)), DecWhole(DecData, Lookup(cs, 11)));
    if x.None? || s.None? || e.None? || b.None? || d.None? || !CountOk(Lookup(cs, 12), |d.value|) then None
    else Some(Tail(x.value, s.value, e.value, b.value, d.value))
  }

  // A leading custom section called "name" holds the names.
  function SplitNames(customs: seq<Custom>): Option<(NameData, seq<Custom>)> {
    if customs == [] || customs[0].name != [0x6E, 0x61, 0x6D, 0x65] then Some((NameData([], [], [], []), customs))
    else match DecNames(customs[0].bytes) case None => None case Some(n) => Some((n, customs[1..]))
  }

  function DecCustoms(cs: seq<Chunk>): Option<(NameData, seq<Custom>)> {
    match CustomsIn(cs) case None => None case Some(customs) => SplitNames(customs)
  }

  function Combine(h: Option<Head>, t: Option<Tail>, c: Option<(NameData, seq<Custom>)>): Option<ModuleData> {
    if h.None? || t.None? || c.None? || |h.value.sigs| != |t.value.bodies| then None
    else
      Some(ModuleData(h.value.types, h.value.imports, Zip(h.value.sigs, t.value.bodies), h.value.tables,
                      h.value.mems, h.value.globals, t.value.exports, t.value.start, t.value.elems,
                      t.value.datas, c.value.0, c.value.1))
  }

  function DecModule(bs: Bytes): Option<ModuleData> {
    if |bs| < 8 || bs[..8] != [0x00, 0x61, 0x73, 0x6D, 0x01, 0x00, 0x00, 0x00] then None
    else
      match DecChunks(bs[8..])
      case None => None
      case Some(cs) => if InOrder(cs) then Combine(DecHead(cs), DecTail(cs), DecCustoms(cs)) else None
  }

  /* Each section is read back. */

  function VecSection<T(==)>(f: T -> Bytes, xs: seq<T>): Option<Bytes> {
    if xs == [] then None else Some(EncVec(f, xs))
  }

  lemma VecBack<T>(f: T -> Bytes, d: Decoder<T>, xs: seq<T>)
    requires IsU32(|xs|) && forall x | x in xs :: Reads(f, d, x)
    ensures DecWhole(d, VecSection(f, xs)) == Some(xs)
  {
    WholeRoundTrip(f, d, xs, VecSection(f, xs));
  }

  lemma TypesBack(xs: seq<FuncType>)
    requires IsU32(|xs|) && forall x | x in xs :: FuncTypeOk(x)
    ensures DecWhole(DecFuncType, VecSection(EncFuncType, xs)) == Some(xs)
  {
    forall x | x in xs
      ensures Reads(EncFuncType, DecFuncType, x)
    {
      forall rest: Bytes
        ensures DecFuncType(EncFuncType(x) + rest) == Some((x, rest))
      {
        FuncTypeRoundTrip(x, rest);
      }
    }
    VecBack(EncFuncType, DecFuncType, xs);
  }

  lemma ImportsBack(xs: seq<Import>)
    requires IsU32(|xs|) && forall x | x in xs :: ImportOk(x)
    ensures DecWhole(DecImport, VecSection(EncImport, xs)) == Some(xs)
  {
    forall x | x in xs
      ensures Reads(EncImport, DecImport, x)
    {
      forall rest: Bytes
        ensures DecImport(EncImport(x) + rest) == Some((x, rest))
      {
        ImportRoundTrip(x, rest);
      }
    }
    VecBack(EncImport, DecImport, xs);
  }

  lemma SigsBack(xs: seq<u32>)
    requires IsU32(|xs|)
    ensures DecWhole(DecIdx, VecSection(EncIdx, xs)) == Some(xs)
  {
    forall x | x in xs
      ensures Reads(EncIdx, DecIdx, x)
    {
      forall rest: Bytes
        ensures DecIdx(EncIdx(x) + rest) == Some((x, rest))
      {
        IdxRoundTrip(x, rest);
      }
    }
    VecBack(EncIdx, DecIdx, xs);
  }

  lemma TablesBack(xs: seq<TableDef>)
    requires IsU32(|xs|) && forall x | x in xs :: LimitsOk(x.limits)
    ensures DecWhole(DecTable, VecSection(EncTable, xs)) == Some(xs)
  {
    forall x | x in xs
      ensures Reads(EncTable, DecTable, x)
    {
      forall rest: Bytes
        ensures DecTable(EncTable(x) + rest) == Some((x, rest))
      {
        TableRoundTrip(x, rest);
      }
    }
    VecBack(EncTable, DecTable, xs);
  }

  lemma MemsBack(xs: seq<Limits>)
    requires IsU32(|xs|) && forall x | x in xs :: LimitsOk(x)
    ensures DecWhole(DecLimits, VecSection(EncLimits, xs)) == Some(xs)
  {
    forall x | x in xs
      ensures Reads(EncLimits, DecLimits, x)
    {
      forall rest: Bytes
        ensures DecLimits(EncLimits(x) + rest) == Some((x, rest))
      {
        LimitsRoundTrip(x, rest);
      }
    }
    VecBack(EncLimits, DecLimits, xs);
  }

  lemma GlobalsBack(xs: seq<GlobalDef>)
    requires IsU32(|xs|)
    ensures DecWhole(DecGlobal, VecSection(EncGlobal, xs)) == Some(xs)
  {
    forall x | x in xs
      ensures Reads(EncGlobal, DecGlobal, x)
    {
      forall rest: Bytes
        ensures DecGlobal(EncGlobal(x) + rest) == Some((x, rest))
      {
        GlobalRoundTrip(x, rest);
      }
    }
    VecBack(EncGlobal, DecGlobal, xs);
  }

  lemma ExportsBack(xs: seq<Export>)
    requires IsU32(|xs|) && forall x | x in xs :: NameOk(x.name)
    ensures DecWhole(DecExport, VecSection(EncExport, xs)) == Some(xs)
  {
    forall x | x in xs
      ensures Reads(EncExport, DecExport, x)
    {
      forall rest: Bytes
        ensures DecExport(EncExport(x) + rest) == Some((x, rest))
      {
        ExportRoundTrip(x, rest);
      }
    }
    VecBack(EncExport, DecExport, xs);
  }

  lemma ElemsBack(xs: seq<ElemSeg>)
    requires IsU32(|xs|) && forall x | x in xs :: IsU32(|x.funcs|) && (x.PassiveElem? ==> x.t == FuncRef)
    ensures DecWhole(DecElem, VecSection(EncElem, xs)) == Some(xs)
  {
    forall x | x in xs
      ensures Reads(EncElem, DecElem, x)
    {
      forall rest: Bytes
        ensures DecElem(EncElem(x) + rest) == Some((x, rest))
      {
        ElemRoundTrip(x, rest);
      }
    }
    VecBack(EncElem, DecElem, xs);
  }

  lemma BodiesBack(xs: seq<Bytes>)
    requires IsU32(|xs|) && forall x | x in xs :: IsU32(|x|)
    ensures DecWhole(DecBytes, VecSection(EncBytes, xs)) == Some(xs)
  {
    forall x | x in xs
      ensures Reads(EncBytes, DecBytes, x)
    {
      forall rest: Bytes
        ensures DecBytes(EncBytes(x) + rest) == Some((x, rest))
      {
        BytesRoundTrip(x, rest);
      }
    }
    VecBack(EncBytes, DecBytes, xs);
  }

  lemma DatasBack(xs: seq<DataSeg>)
    requires IsU32(|xs|) && forall x | x in xs :: IsU32(|x.bytes|)
    ensures DecWhole(DecData, VecSection(EncData, xs)) == Some(xs)
  {
    forall x | x in xs
      ensures Reads(EncData, DecData, x)
    {
      forall rest: Bytes
        ensures DecData(EncData(x) + rest) == Some((x, rest))
      {
        DataRoundTrip(x, rest);
      }
    }
    VecBack(EncData, DecData, xs);
  }

  /* What a lookup finds. */

  lemma LookupVec<T>(cs: seq<Chunk>, n: byte, f: T -> Bytes, xs: seq<T>)
    ensures forall id :: Lookup(AddVec(cs, n, f, xs), id) ==
                         if Lookup(cs, id).Some? then Lookup(cs, id)
                         else if n == id then VecSection(f, xs) else None
  {
    LookupAdd(cs, n, xs != [], EncVec(f, xs));
  }

  lemma HeadLookups(m: ModuleData)
    ensures var cs := HeadSections(m);
      && Lookup(cs, 1) == VecSection(EncFuncType, m.types) && Lookup(cs, 2) == VecSection(EncImport, m.imports)
      && Lookup(cs, 3) == VecSection(EncIdx, SigsOf(m.funcs)) && Lookup(cs, 4) == VecSection(EncTable, m.tables)
      && Lookup(cs, 5) == VecSection(EncLimits, m.mems) && Lookup(cs, 6) == VecSection(EncGlobal, m.globals)
      && forall id: byte :: id == 0 || id > 6 ==> Lookup(cs, id) == None
  {
    var c1 := AddVec([], 1, EncFuncType, m.types);
    var c2 := AddVec(c1, 2, EncImport, m.imports);
    var c3 := AddVec(c2, 3, EncIdx, SigsOf(m.funcs));
    var c4 := AddVec(c3, 4, EncTable, m.tables);
    var c5 := AddVec(c4, 5, EncLimits, m.mems);
    LookupVec([], 1, EncFuncType, m.types);
    LookupVec(c1, 2, EncImport, m.imports);
    LookupVec(c2, 3, EncIdx, SigsOf(m.funcs));
    LookupVec(c3, 4, EncTable, m.tables);
    LookupVec(c4, 5, EncLimits, m.mems);
    LookupVec(c5, 6, EncGlobal, m.globals);
  }

  lemma TailLookups(cs: seq<Chunk>, m: ModuleData)
    requires forall id: byte :: id == 0 || id > 6 ==> Lookup(cs, id) == None
    ensures var r := TailSections(cs, m);
      && Lookup(r, 7) == VecSection(EncExport, m.exports)
      && Lookup(r, 8) == (if m.start.Some? then Some(ULEB(m.start.value)) else None)
      && Lookup(r, 9) == VecSection(EncElem, m.elems)
      && Lookup(r, 12) == (if HasPassive(m.datas) then Some(ULEB(|m.datas|)) else None)
      && Lookup(r, 10) == VecSection(EncBytes, BodiesOf(m.funcs)) && Lookup(r, 11) == VecSection(EncData, m.datas)
    ensures forall id: byte :: 1 <= id <= 6 ==> Lookup(TailSections(cs, m), id) == Lookup(cs, id)
  {
    var start := if m.start.Some? then ULEB(m.start.value) else [];
    var c7 := AddVec(cs, 7, EncExport, m.exports);
    var c8 := Add(c7, 8, m.start.Some?, start);
    var c9 := AddVec(c8, 9, EncElem, m.elems);
    var c12 := Add(c9, 12, HasPassive(m.datas), ULEB(|m.datas|));
    var c10 := AddVec(c12, 10, EncBytes, BodiesOf(m.funcs));
    LookupVec(cs, 7, EncExport, m.exports);
    LookupAdd(c7, 8, m.start.Some?, start);
    LookupVec(c8, 9, EncElem, m.elems);
    LookupAdd(c9, 12, HasPassive(m.datas), ULEB(|m.datas|));
    LookupVec(c12, 10, EncBytes, BodiesOf(m.funcs));
    LookupVec(c10, 11, EncData, m.datas);
  }

  lemma {:induction false} LookupBeforeCustoms(cs: seq<Chunk>, customs: seq<Custom>, id: byte)
    requires id != 0
    ensures Lookup(cs + CustomChunks(customs), id) == Lookup(cs, id)
    decreases |customs|
  {
    if customs == [] {
      assert cs + CustomChunks(customs) == cs;
    } else {
      var init, last := CustomChunks(customs[..|customs| - 1]), EncCustom(customs[|customs| - 1]);
      Assoc(cs, init, [last]);
      LookupBeforeCustoms(cs, customs[..|customs| - 1], id);
      LookupSnoc(cs + init, last, id);
    }
  }

  /* Order. */

  // In order, with nothing ranked above r.
  predicate UpTo(cs: seq<Chunk>, r: int) {
    InOrder(cs) && forall k | 0 <= k < |cs| :: cs[k].id != 0 && Rank(cs[k].id) <= r
  }

  lemma AddUpTo(cs: seq<Chunk>, r: int, id: byte, present: bool, body: Bytes)
    requires UpTo(cs, r) && 0 < id <= 12 && r < Rank(id)
    ensures UpTo(Add(cs, id, present, body), Rank(id))
  {}

  lemma HeadInOrder(m: ModuleData)
    ensures UpTo(HeadSections(m), 6)
  {
    var c1 := AddVec([], 1, EncFuncType, m.types);
    var c2 := AddVec(c1, 2, EncImport, m.imports);
    var c3 := AddVec(c2, 3, EncIdx, SigsOf(m.funcs));
    var c4 := AddVec(c3, 4, EncTable, m.tables);
    var c5 := AddVec(c4, 5, EncLimits, m.mems);
    AddUpTo([], 0, 1, m.types != [], EncVec(EncFuncType, m.types));
    AddUpTo(c1, 1, 2, m.imports != [], EncVec(EncImport, m.imports));
    AddUpTo(c2, 2, 3, SigsOf(m.funcs) != [], EncVec(EncIdx, SigsOf(m.funcs)));
    AddUpTo(c3, 3, 4, m.tables != [], EncVec(EncTable, m.tables));
    AddUpTo(c4, 4, 5, m.mems != [], EncVec(EncLimits, m.mems));
    AddUpTo(c5, 5, 6, m.globals != [], EncVec(EncGlobal, m.globals));
  }

  lemma TailInOrder(cs: seq<Chunk>, m: ModuleData)
    requires UpTo(cs, 6)
    ensures UpTo(TailSections(cs, m), 12)
  {
    var start := if m.start.Some? then ULEB(m.start.value) else [];
    var c7 := AddVec(cs, 7, EncExport, m.exports);
    var c8 := Add(c7, 8, m.start.Some?, start);
    var c9 := AddVec(c8, 9, EncElem, m.elems);
    var c12 := Add(c9, 12, HasPassive(m.datas), ULEB(|m.datas|));
    var c10 := AddVec(c12, 10, EncBytes, BodiesOf(m.funcs));
    AddUpTo(cs, 6, 7, m.exports != [], EncVec(EncExport, m.exports));
    AddUpTo(c7, 7, 8, m.start.Some?, start);
    AddUpTo(c8, 8, 9, m.elems != [], EncVec(EncElem, m.elems));
    AddUpTo(c9, 9, 12, HasPassive(m.datas), ULEB(|m.datas|));
    AddUpTo(c12, 10, 10, BodiesOf(m.funcs) != [], EncVec(EncBytes, BodiesOf(m.funcs)));
    AddUpTo(c10, 11, 11, m.datas != [], EncVec(EncData, m.datas));
  }

  lemma SectionsInOrder(m: ModuleData)
    ensures InOrder(Sections(m))
  {
    HeadInOrder(m);
    TailInOrder(HeadSections(m), m);
  }

  /* Custom sections. */

  lemma {:induction false} NoCustoms(cs: seq<Chunk>)
    requires forall k | 0 <= k < |cs| :: cs[k].id != 0
    ensures CustomsIn(cs) == Some([])
    decreases |cs|
  {
    if cs != [] {
      NoCustoms(cs[..|cs| - 1]);
    }
  }

  lemma CustomsSnoc(before: seq<Chunk>, all: seq<Chunk>, known: seq<Custom>, c: Custom)
    requires NameOk(c.name) && CustomsIn(before) == Some(known) && all == before + [EncCustom(c)]
    ensures CustomsIn(all) == Some(known + [c])
  {
    assert all[..|before|] == before;
    NameRoundTrip(c.name, c.bytes);
  }

  lemma OneMoreCustom(cs: seq<Chunk>, customs: seq<Custom>)
    requires customs != []
    ensures var init, last := customs[..|customs| - 1], customs[|customs| - 1];
      cs + CustomChunks(customs) == cs + CustomChunks(init) + [EncCustom(last)]
  {}

  lemma {:induction false} CustomsBack(cs: seq<Chunk>, customs: seq<Custom>)
    requires forall k | 0 <= k < |cs| :: cs[k].id != 0
    requires forall c | c in customs :: NameOk(c.name)
    ensures CustomsIn(cs + CustomChunks(customs)) == Some(customs)
    decreases |customs|
  {
    if customs == [] {
      NoCustoms(cs);
      assert cs + CustomChunks(customs) == cs;
    } else {
      var init, last := customs[..|customs| - 1], customs[|customs| - 1];
      CustomsBack(cs, init);
      OneMoreCustom(cs, customs);
      CustomsSnoc(cs + CustomChunks(init), cs + CustomChunks(customs), init, last);
      assert init + [last] == customs;
    }
  }

  /* The whole module. */

  // What the format can carry: u32 lengths, and everything a passive element segment or a custom
  // section of the caller could be confused with left out.
  ghost predicate ModuleOk(m: ModuleData) {
    && HeadOk(m) && TailOk(m) && NamesOk(m.names) && Once(m.names) && SectionsFit(m)
    && (forall c | c in m.customs :: NameOk(c.name) && c.name != NAME)
  }

  // Every section's size is a u32. The quantifier keeps the sections out of a proof that does not ask.
  ghost predicate SectionsFit(m: ModuleData) {
    forall cs | cs == Sections(m) :: ChunksFit(cs)
  }

  predicate HeadOk(m: ModuleData) {
    && IsU32(|m.types|) && (forall x | x in m.types :: FuncTypeOk(x))
    && IsU32(|m.imports|) && (forall x | x in m.imports :: ImportOk(x))
    && IsU32(|m.funcs|) && IsU32(|m.tables|) && IsU32(|m.mems|) && IsU32(|m.globals|)
    && (forall x | x in m.tables :: LimitsOk(x.limits)) && (forall x | x in m.mems :: LimitsOk(x))
  }

  predicate TailOk(m: ModuleData) {
    && IsU32(|m.exports|) && (forall x | x in m.exports :: NameOk(x.name))
    && IsU32(|m.elems|) && (forall x | x in m.elems :: IsU32(|x.funcs|) && (x.PassiveElem? ==> x.t == FuncRef))
    && IsU32(|m.funcs|) && (forall x | x in BodiesOf(m.funcs) :: IsU32(|x|))
    && IsU32(|m.datas|) && (forall x | x in m.datas :: IsU32(|x.bytes|))
  }

  lemma HeadBack(m: ModuleData, cs: seq<Chunk>)
    requires HeadOk(m)
    requires Lookup(cs, 1) == VecSection(EncFuncType, m.types) && Lookup(cs, 2) == VecSection(EncImport, m.imports)
    requires Lookup(cs, 3) == VecSection(EncIdx, SigsOf(m.funcs)) && Lookup(cs, 4) == VecSection(EncTable, m.tables)
    requires Lookup(cs, 5) == VecSection(EncLimits, m.mems) && Lookup(cs, 6) == VecSection(EncGlobal, m.globals)
    ensures DecHead(cs) == Some(Head(m.types, m.imports, SigsOf(m.funcs), m.tables, m.mems, m.globals))
  {
    TypesBack(m.types);
    ImportsBack(m.imports);
    SigsBack(SigsOf(m.funcs));
    TablesBack(m.tables);
    MemsBack(m.mems);
    GlobalsBack(m.globals);
  }

  lemma CountBack(section: Option<Bytes>, n: u32)
    requires section == None || section == Some(ULEB(n))
    ensures CountOk(section, n)
  {
    IdxRoundTrip(n, []);
    assert ULEB(n) + [] == ULEB(n);
  }

  lemma StartBack(start: Option<u32>)
    ensures DecStart(if start.Some? then Some(ULEB(start.value)) else None) == Some(start)
  {
    if start.Some? {
      IdxRoundTrip(start.value, []);
      assert ULEB(start.value) + [] == ULEB(start.value);
    }
  }

  lemma TailBack(m: ModuleData, cs: seq<Chunk>)
    requires TailOk(m)
    requires Lookup(cs, 7) == VecSection(EncExport, m.exports)
    requires Lookup(cs, 8) == if m.start.Some? then Some(ULEB(m.start.value)) else None
    requires Lookup(cs, 9) == VecSection(EncElem, m.elems)
    requires Lookup(cs, 12) == if HasPassive(m.datas) then Some(ULEB(|m.datas|)) else None
    requires Lookup(cs, 10) == VecSection(EncBytes, BodiesOf(m.funcs)) && Lookup(cs, 11) == VecSection(EncData, m.datas)
    ensures DecTail(cs) == Some(Tail(m.exports, m.start, m.elems, BodiesOf(m.funcs), m.datas))
  {
    ExportsBack(m.exports);
    StartBack(m.start);
    ElemsBack(m.elems);
    BodiesBack(BodiesOf(m.funcs));
    DatasBack(m.datas);
    CountBack(Lookup(cs, 12), |m.datas|);
    TailMakes(cs, Tail(m.exports, m.start, m.elems, BodiesOf(m.funcs), m.datas));
  }

  lemma TailMakes(cs: seq<Chunk>, t: Tail)
    requires DecWhole(DecExport, Lookup(cs, 7)) == Some(t.exports) && DecStart(Lookup(cs, 8)) == Some(t.start)
    requires DecWhole(DecElem, Lookup(cs, 9)) == Some(t.elems) && DecWhole(DecBytes, Lookup(cs, 10)) == Some(t.bodies)
    requires DecWhole(DecData, Lookup(cs, 11)) == Some(t.datas) && CountOk(Lookup(cs, 12), |t.datas|)
    ensures DecTail(cs) == Some(t)
  {}

  lemma SplitBack(m: ModuleData)
    requires NamesOk(m.names) && Once(m.names) && forall c | c in m.customs :: c.name != NAME
    ensures SplitNames(AllCustoms(m)) == Some((SortedNames(m.names), m.customs))
  {
    var names := Custom(NAME, EncChunks(NameChunks(m.names)));
    if NoNames(m.names) {
      assert [] + m.customs == m.customs;
    } else {
      NamesRoundTrip(m.names);
      assert ([names] + m.customs)[1..] == m.customs;
    }
  }

  lemma CustomSectionsBack(m: ModuleData, core: seq<Chunk>)
    requires forall k | 0 <= k < |core| :: core[k].id != 0
    requires NamesOk(m.names) && Once(m.names) && forall c | c in m.customs :: NameOk(c.name) && c.name != NAME
    ensures DecCustoms(core + CustomChunks(AllCustoms(m))) == Some((SortedNames(m.names), m.customs))
  {
    CustomsBack(core, AllCustoms(m));
    SplitBack(m);
  }

  lemma ZipBack(fs: seq<FuncDef>)
    ensures Zip(SigsOf(fs), BodiesOf(fs)) == fs
  {}

  lemma CoreLookups(m: ModuleData, id: byte)
    requires id != 0
    ensures Lookup(Sections(m), id) == Lookup(TailSections(HeadSections(m), m), id)
  {
    LookupBeforeCustoms(TailSections(HeadSections(m), m), AllCustoms(m), id);
  }

  // The data count section is there exactly if some data segment is passive.
  lemma CountSection(m: ModuleData)
    ensures Lookup(Sections(m), 12).Some? <==> HasPassive(m.datas)
  {
    HeadLookups(m);
    TailLookups(HeadSections(m), m);
    CoreLookups(m, 12);
  }

  lemma HeadSectionsBack(m: ModuleData)
    requires HeadOk(m)
    ensures DecHead(Sections(m)) == Some(Head(m.types, m.imports, SigsOf(m.funcs), m.tables, m.mems, m.globals))
  {
    HeadLookups(m);
    TailLookups(HeadSections(m), m);
    CoreLookups(m, 1);
    CoreLookups(m, 2);
    CoreLookups(m, 3);
    CoreLookups(m, 4);
    CoreLookups(m, 5);
    CoreLookups(m, 6);
    HeadBack(m, Sections(m));
  }

  lemma TailSectionsBack(m: ModuleData)
    requires TailOk(m)
    ensures DecTail(Sections(m)) == Some(Tail(m.exports, m.start, m.elems, BodiesOf(m.funcs), m.datas))
  {
    HeadLookups(m);
    TailLookups(HeadSections(m), m);
    CoreLookups(m, 7);
    CoreLookups(m, 8);
    CoreLookups(m, 9);
    CoreLookups(m, 12);
    CoreLookups(m, 10);
    CoreLookups(m, 11);
    TailBack(m, Sections(m));
  }

  lemma CombineBack(m: ModuleData, names: NameData)
    ensures Combine(Some(Head(m.types, m.imports, SigsOf(m.funcs), m.tables, m.mems, m.globals)),
                    Some(Tail(m.exports, m.start, m.elems, BodiesOf(m.funcs), m.datas)), Some((names, m.customs)))
            == Some(m.(names := names))
  {
    ZipBack(m.funcs);
  }

  // The sections that follow the preamble, decoded.
  lemma ModuleReads(m: ModuleData, cs: seq<Chunk>)
    requires ChunksFit(cs) && InOrder(cs) && EncModule(m) == MAGIC + EncChunks(cs)
    ensures DecModule(EncModule(m)) == Combine(DecHead(cs), DecTail(cs), DecCustoms(cs))
  {
    assert EncModule(m)[..8] == MAGIC && EncModule(m)[8..] == EncChunks(cs);
    ChunksRoundTrip(cs);
  }

  lemma CustomsOfModuleBack(m: ModuleData)
    requires NamesOk(m.names) && Once(m.names) && forall c | c in m.customs :: NameOk(c.name) && c.name != NAME
    ensures DecCustoms(Sections(m)) == Some((SortedNames(m.names), m.customs))
  {
    HeadInOrder(m);
    TailInOrder(HeadSections(m), m);
    CustomSectionsBack(m, TailSections(HeadSections(m), m));
  }

  // Decoding an assembled module gives back the contents of every section; names come back sorted.
  lemma ModuleRoundTrip(m: ModuleData)
    requires ModuleOk(m)
    ensures DecModule(EncModule(m)) == Some(m.(names := SortedNames(m.names)))
  {
    var cs := Sections(m);
    assert DecModule(EncModule(m)) == Combine(DecHead(cs), DecTail(cs), DecCustoms(cs)) by {
      SectionsInOrder(m);
      ModuleReads(m, cs);
    }
    HeadSectionsBack(m);
    TailSectionsBack(m);
    CustomsOfModuleBack(m);
    CombineBack(m, SortedNames(m.names));
  }
}
