/**
 The binary format of a module (section 5.5 of the WebAssembly Core Specification 2.0): an encoding
 of every section's entries, decoders for them, and the proof that each entry is read back.
 */
module Binary {
  import opened Ints
  import opened Syntax
  import opened Leb128
  import opened Buffers
  import opened Codec
  import opened Encoding

  datatype Limits = Limits(min: u64, max: Option<u64>, shared: bool, is64: bool)

  datatype ConstExpr =
    | InitI32(n32: i32)
    | InitI64(n64: i64)
    | InitF32(bits32: u32)
    | InitF64(bits64: u64)
    | InitGlobal(global: u32)
    | InitNull(ref: RefType)
    | InitFunc(func: u32)

  datatype Desc =
    | FuncDesc(sig: u32)
    | TableDesc(elem: RefType, tlim: Limits)
    | MemDesc(mlim: Limits)
    | GlobalDesc(gtype: GlobalType)

  datatype Import = Import(mod: Bytes, name: Bytes, desc: Desc)
  datatype TableDef = TableDef(elem: RefType, limits: Limits)
  datatype GlobalDef = GlobalDef(gtype: GlobalType, init: ConstExpr)

  datatype ExternKind = ExternFunc | ExternTable | ExternMem | ExternGlobal
  datatype Export = Export(name: Bytes, kind: ExternKind, index: u32)

  datatype ElemSeg =
    | ActiveElem(table: u32, offset: ConstExpr, funcs: seq<u32>)
    | PassiveElem(t: RefType, funcs: seq<u32>)

  datatype DataSeg = ActiveData(mem: u32, offset: ConstExpr, bytes: Bytes) | PassiveData(bytes: Bytes)

  /* Value types. */

  function EncType(t: ValType): Bytes {
    [TypeByte(t)]
  }

  function DecType(bs: Bytes): Option<(ValType, Bytes)> {
    if bs == [] || TypeOfByte(bs[0]).None? then None else Some((TypeOfByte(bs[0]).value, bs[1..]))
  }

  lemma TypeRoundTrip(t: ValType, rest: Bytes)
    ensures DecType(EncType(t) + rest) == Some((t, rest))
  {
    assert (EncType(t) + rest)[1..] == rest;
  }

  function DecRef(bs: Bytes): Option<(RefType, Bytes)> {
    match DecType(bs)
    case None => None
    case Some((t, rest)) => if t.FuncRef? || t.ExternRef? then Some((t, rest)) else None
  }

  lemma TypeReads(t: ValType)
    ensures Reads(EncType, DecType, t)
  {
    forall rest: Bytes
      ensures DecType(EncType(t) + rest) == Some((t, rest))
    {
      TypeRoundTrip(t, rest);
    }
  }

  /* Function types (section 5.3.6). */

  function EncFuncType(ft: FuncType): Bytes {
    [0x60] + EncVec(EncType, ft.params) + EncVec(EncType, ft.results)
  }

  function DecFuncType(bs: Bytes): Option<(FuncType, Bytes)> {
    if bs == [] || bs[0] != 0x60 then None
    else
      match DecVec(DecType, bs[1..])
      case None => None
      case Some((params, r1)) =>
        match DecVec(DecType, r1) case None => None case Some((results, r2)) => Some((FuncType(params, results), r2))
  }

  predicate FuncTypeOk(ft: FuncType) {
    IsU32(|ft.params|) && IsU32(|ft.results|)
  }

  lemma TypesRoundTrip(ts: seq<ValType>, rest: Bytes)
    requires IsU32(|ts|)
    ensures DecVec(DecType, EncVec(EncType, ts) + rest) == Some((ts, rest))
  {
    forall t | t in ts
      ensures Reads(EncType, DecType, t)
    {
      TypeReads(t);
    }
    VecRoundTrip(EncType, DecType, ts, rest);
  }

  lemma FuncTypeRoundTrip(ft: FuncType, rest: Bytes)
    requires FuncTypeOk(ft)
    ensures DecFuncType(EncFuncType(ft) + rest) == Some((ft, rest))
  {
    var params, results := EncVec(EncType, ft.params), EncVec(EncType, ft.results);
    Assoc([0x60] + params, results, rest);
    Assoc([0x60], params, results + rest);
    assert ([0x60] + (params + (results + rest)))[1..] == params + (results + rest);
    TypesRoundTrip(ft.params, results + rest);
    TypesRoundTrip(ft.results, rest);
  }

  /* Limits (section 5.3.8, with the shared and 64-bit flags). */

  function LimitFlags(l: Limits): byte {
    (if l.max.Some? then 1 else 0) + (if l.shared then 2 else 0) + (if l.is64 then 4 else 0)
  }

  function EncLimits(l: Limits): Bytes {
    [LimitFlags(l)] + ULEB(l.min) + (if l.max.Some? then ULEB(l.max.value) else [])
  }

  function DecLimits(bs: Bytes): Option<(Limits, Bytes)> {
    if bs == [] || bs[0] >= 8 then None
    else
      var (shared, is64) := (bs[0] / 2 % 2 == 1, bs[0] / 4 == 1);
      match DecAddr(is64, bs[1..])
      case None => None
      case Some((min, r1)) =>
        if bs[0] % 2 == 0 then Some((Limits(min, None, shared, is64), r1))
        else
          match DecAddr(is64, r1)
          case None => None
          case Some((max, r2)) => Some((Limits(min, Some(max), shared, is64), r2))
  }

  // The bounds are of the width the flags say.
  predicate LimitsOk(l: Limits) {
    AddrOk(l.is64, l.min) && (l.max.Some? ==> AddrOk(l.is64, l.max.value))
  }

  // Exactly then limits are read back; the library writes any 64-bit bounds.
  lemma LimitsRoundTrip(l: Limits, rest: Bytes)
    ensures DecLimits(EncLimits(l) + rest) == Some((l, rest)) <==> LimitsOk(l)
  {
    var flags, tail := LimitFlags(l), if l.max.Some? then ULEB(l.max.value) else [];
    Assoc([flags] + ULEB(l.min), tail, rest);
    Assoc([flags], ULEB(l.min), tail + rest);
    assert ([flags] + (ULEB(l.min) + (tail + rest)))[1..] == ULEB(l.min) + (tail + rest);
    AddrRoundTrip(l.is64, l.min, tail + rest);
    if l.max.Some? {
      AddrRoundTrip(l.is64, l.max.value, rest);
    } else {
      assert tail + rest == rest;
    }
  }

  /* Constant expressions (section 5.4.9): one instruction and `end`. */

  function InitByte(e: ConstExpr): byte {
    match e
    case InitI32(_) => 0x41
    case InitI64(_) => 0x42
    case InitF32(_) => 0x43
    case InitF64(_) => 0x44
    case InitGlobal(_) => 0x23
    case InitNull(_) => 0xD0
    case InitFunc(_) => 0xD2
  }

  function InitArg(e: ConstExpr): Bytes {
    match e
    case InitI32(n) => SLEB(n)
    case InitI64(n) => SLEB(n)
    case InitF32(bits) => LittleEndian(bits, 4)
    case InitF64(bits) => LittleEndian(bits, 8)
    case InitGlobal(g) => ULEB(g)
    case InitNull(t) => EncType(t)
    case InitFunc(f) => ULEB(f)
  }

  function EncInit(e: ConstExpr): Bytes {
    [InitByte(e)] + InitArg(e) + [0x0B]
  }

  function DecInitOp(bs: Bytes): Option<(ConstExpr, Bytes)> {
    if bs == [] then None
    else if bs[0] == 0x41 then
      (match DecImm(false, I32Shape, bs[1..]) case Some((ConstI32(n), r)) => Some((InitI32(n), r)) case _ => None)
    else if bs[0] == 0x42 then
      (match DecImm(false, I64Shape, bs[1..]) case Some((ConstI64(n), r)) => Some((InitI64(n), r)) case _ => None)
    else if bs[0] == 0x43 then
      (match DecImm(false, F32Shape, bs[1..]) case Some((ConstF32(n), r)) => Some((InitF32(n), r)) case _ => None)
    else if bs[0] == 0x44 then
      (match DecImm(false, F64Shape, bs[1..]) case Some((ConstF64(n), r)) => Some((InitF64(n), r)) case _ => None)
    else if bs[0] == 0x23 then
      (match DecIdx(bs[1..]) case Some((g, r)) => Some((InitGlobal(g), r)) case None => None)
    else if bs[0] == 0xD0 then
      (match DecRef(bs[1..]) case Some((t, r)) => Some((InitNull(t), r)) case None => None)
    else if bs[0] == 0xD2 then
      (match DecIdx(bs[1..]) case Some((f, r)) => Some((InitFunc(f), r)) case None => None)
    else None
  }

  function DecInit(bs: Bytes): Option<(ConstExpr, Bytes)> {
    match DecInitOp(bs)
    case None => None
    case Some((e, rest)) => if rest != [] && rest[0] == 0x0B then Some((e, rest[1..])) else None
  }

  lemma InitOpRoundTrip(e: ConstExpr, rest: Bytes)
    ensures DecInitOp([InitByte(e)] + (InitArg(e) + rest)) == Some((e, rest))
  {
    assert ([InitByte(e)] + (InitArg(e) + rest))[1..] == InitArg(e) + rest;
    match e
    case InitI32(n) => ConstRoundTrip(false, ConstI32(n), rest);
    case InitI64(n) => ConstRoundTrip(false, ConstI64(n), rest);
    case InitF32(bits) => ConstRoundTrip(false, ConstF32(bits), rest);
    case InitF64(bits) => ConstRoundTrip(false, ConstF64(bits), rest);
    case InitGlobal(g) => IdxRoundTrip(g, rest);
    case InitNull(t) => TypeRoundTrip(t, rest);
    case InitFunc(f) => IdxRoundTrip(f, rest);
  }

  lemma InitRoundTrip(e: ConstExpr, rest: Bytes)
    ensures DecInit(EncInit(e) + rest) == Some((e, rest))
  {
    Assoc([InitByte(e)] + InitArg(e), [0x0B], rest);
    Assoc([InitByte(e)], InitArg(e), [0x0B] + rest);
    InitOpRoundTrip(e, [0x0B] + rest);
    assert ([0x0B] + rest)[1..] == rest;
  }

  /* Imports (section 5.5.5). */

  function EncGlobalType(g: GlobalType): Bytes {
    EncType(g.t) + [if g.mutable then 0x01 else 0x00]
  }

  function DecGlobalType(bs: Bytes): Option<(GlobalType, Bytes)> {
    match DecType(bs)
    case None => None
    case Some((t, r)) => if r == [] || r[0] > 1 then None else Some((GlobalType(t, r[0] == 1), r[1..]))
  }

  lemma GlobalTypeRoundTrip(g: GlobalType, rest: Bytes)
    ensures DecGlobalType(EncGlobalType(g) + rest) == Some((g, rest))
  {
    var m: byte := if g.mutable then 0x01 else 0x00;
    Assoc(EncType(g.t), [m], rest);
    TypeRoundTrip(g.t, [m] + rest);
    assert ([m] + rest)[1..] == rest;
  }

  function EncTable(t: TableDef): Bytes {
    EncType(t.elem) + EncLimits(t.limits)
  }

  function DecTable(bs: Bytes): Option<(TableDef, Bytes)> {
    match DecRef(bs)
    case None => None
    case Some((t, r1)) => match DecLimits(r1) case None => None case Some((l, r2)) => Some((TableDef(t, l), r2))
  }

  lemma TableRoundTrip(t: TableDef, rest: Bytes)
    ensures DecTable(EncTable(t) + rest) == Some((t, rest)) <==> LimitsOk(t.limits)
  {
    Assoc(EncType(t.elem), EncLimits(t.limits), rest);
    TypeRoundTrip(t.elem, EncLimits(t.limits) + rest);
    LimitsRoundTrip(t.limits, rest);
  }

  function DescByte(d: Desc): byte {
    match d case FuncDesc(_) => 0 case TableDesc(_, _) => 1 case MemDesc(_) => 2 case GlobalDesc(_) => 3
  }

  function EncDesc(d: Desc): Bytes {
    match d
    case FuncDesc(sig) => ULEB(sig)
    case TableDesc(elem, lim) => EncTable(TableDef(elem, lim))
    case MemDesc(lim) => EncLimits(lim)
    case GlobalDesc(g) => EncGlobalType(g)
  }

  function DecDesc(kind: byte, bs: Bytes): Option<(Desc, Bytes)> {
    if kind == 0 then (match DecIdx(bs) case None => None case Some((i, r)) => Some((FuncDesc(i), r)))
    else if kind == 1 then
      (match DecTable(bs) case None => None case Some((t, r)) => Some((TableDesc(t.elem, t.limits), r)))
    else if kind == 2 then (match DecLimits(bs) case None => None case Some((l, r)) => Some((MemDesc(l), r)))
    else if kind == 3 then (match DecGlobalType(bs) case None => None case Some((g, r)) => Some((GlobalDesc(g), r)))
    else None
  }

  predicate DescOk(d: Desc) {
    (d.TableDesc? ==> LimitsOk(d.tlim)) && (d.MemDesc? ==> LimitsOk(d.mlim))
  }

  lemma DescRoundTrip(d: Desc, rest: Bytes)
    ensures DecDesc(DescByte(d), EncDesc(d) + rest) == Some((d, rest)) <==> DescOk(d)
  {
    match d
    case FuncDesc(sig) => IdxRoundTrip(sig, rest);
    case TableDesc(elem, lim) => TableRoundTrip(TableDef(elem, lim), rest);
    case MemDesc(lim) => LimitsRoundTrip(lim, rest);
    case GlobalDesc(g) => GlobalTypeRoundTrip(g, rest);
  }

  function EncImport(i: Import): Bytes {
    EncBytes(i.mod) + EncBytes(i.name) + [DescByte(i.desc)] + EncDesc(i.desc)
  }

  function DecImport(bs: Bytes): Option<(Import, Bytes)> {
    match DecName(bs)
    case None => None
    case Some((mod, r1)) =>
      match DecName(r1)
      case None => None
      case Some((name, r2)) =>
        if r2 == [] then None
        else match DecDesc(r2[0], r2[1..]) case None => None case Some((d, r3)) => Some((Import(mod, name, d), r3))
  }

  predicate ImportOk(i: Import) {
    NameOk(i.mod) && NameOk(i.name) && DescOk(i.desc)
  }

  // An import is read back exactly if its names are UTF-8 and its limits are of their width.
  lemma ImportRoundTrip(i: Import, rest: Bytes)
    requires IsU32(|i.mod|) && IsU32(|i.name|)
    ensures DecImport(EncImport(i) + rest) == Some((i, rest)) <==> ImportOk(i)
  {
    var mod, name, kind, desc := EncBytes(i.mod), EncBytes(i.name), [DescByte(i.desc)], EncDesc(i.desc);
    Assoc(mod + name + kind, desc, rest);
    Assoc(mod + name, kind, desc + rest);
    Assoc(mod, name, kind + (desc + rest));
    NameRoundTrip(i.mod, name + (kind + (desc + rest)));
    NameRoundTrip(i.name, kind + (desc + rest));
    assert (kind + (desc + rest))[1..] == desc + rest;
    DescRoundTrip(i.desc, rest);
  }

  /* Globals, exports. */

  function EncGlobal(g: GlobalDef): Bytes {
    EncGlobalType(g.gtype) + EncInit(g.init)
  }

  function DecGlobal(bs: Bytes): Option<(GlobalDef, Bytes)> {
    match DecGlobalType(bs)
    case None => None
    case Some((t, r1)) => match DecInit(r1) case None => None case Some((e, r2)) => Some((GlobalDef(t, e), r2))
  }

  lemma GlobalRoundTrip(g: GlobalDef, rest: Bytes)
    ensures DecGlobal(EncGlobal(g) + rest) == Some((g, rest))
  {
    Assoc(EncGlobalType(g.gtype), EncInit(g.init), rest);
    GlobalTypeRoundTrip(g.gtype, EncInit(g.init) + rest);
    InitRoundTrip(g.init, rest);
  }

  function KindOf(k: ExternKind): byte {
    match k case ExternFunc => 0 case ExternTable => 1 case ExternMem => 2 case ExternGlobal => 3
  }

  function EncExport(e: Export): Bytes {
    EncBytes(e.name) + [KindOf(e.kind)] + ULEB(e.index)
  }

  function DecExport(bs: Bytes): Option<(Export, Bytes)> {
    match DecName(bs)
    case None => None
    case Some((name, r1)) =>
      if r1 == [] || r1[0] > 3 then None
      else
        var kind := if r1[0] == 0 then ExternFunc else if r1[0] == 1 then ExternTable
                    else if r1[0] == 2 then ExternMem else ExternGlobal;
        match DecIdx(r1[1..]) case None => None case Some((i, r2)) => Some((Export(name, kind, i), r2))
  }

  lemma ExportRoundTrip(e: Export, rest: Bytes)
    requires IsU32(|e.name|)
    ensures DecExport(EncExport(e) + rest) == Some((e, rest)) <==> Utf8(e.name)
  {
    var name, kind, index := EncBytes(e.name), [KindOf(e.kind)], ULEB(e.index);
    Assoc(name + kind, index, rest);
    Assoc(name, kind, index + rest);
    NameRoundTrip(e.name, kind + (index + rest));
    assert (kind + (index + rest))[1..] == index + rest;
    IdxRoundTrip(e.index, rest);
  }

  /* Element and data segments (sections 5.5.12 and 5.5.14). */

  function EncElem(e: ElemSeg): Bytes {
    match e
    case PassiveElem(_, funcs) => ULEB(1) + [0x00] + EncVec(EncIdx, funcs)
    case ActiveElem(table, offset, funcs) =>
      if table == 0 then ULEB(0) + EncInit(offset) + EncVec(EncIdx, funcs)
      else ULEB(2) + ULEB(table) + EncInit(offset) + [0x00] + EncVec(EncIdx, funcs)
  }

  function DecFuncs(bs: Bytes): Option<(seq<u32>, Bytes)> {
    DecVec(DecIdx, bs)
  }

  // An element kind of 0x00 means function references.
  function DecKinded(bs: Bytes): Option<(seq<u32>, Bytes)> {
    if bs == [] || bs[0] != 0x00 then None else DecFuncs(bs[1..])
  }

  function DecElem(bs: Bytes): Option<(ElemSeg, Bytes)> {
    match DecIdx(bs)
    case None => None
    case Some((flags, r1)) =>
      if flags == 1 then
        (match DecKinded(r1) case None => None case Some((fs, r)) => Some((PassiveElem(FuncRef, fs), r)))
      else if flags == 0 then
        (match DecInit(r1) case None => None case Some((e, r2)) =>
           match DecFuncs(r2) case None => None case Some((fs, r)) => Some((ActiveElem(0, e, fs), r)))
      else if flags == 2 then
        (match DecIdx(r1) case None => None case Some((table, r2)) =>
           match DecInit(r2) case None => None case Some((e, r3)) =>
             match DecKinded(r3) case None => None case Some((fs, r)) => Some((ActiveElem(table, e, fs), r)))
      else None
  }

  lemma FuncsRoundTrip(fs: seq<u32>, rest: Bytes)
    requires IsU32(|fs|)
    ensures DecFuncs(EncVec(EncIdx, fs) + rest) == Some((fs, rest))
  {
    forall i | i in fs
      ensures Reads(EncIdx, DecIdx, i)
    {
      IdxReads(i);
    }
    VecRoundTrip(EncIdx, DecIdx, fs, rest);
  }

  lemma KindedRoundTrip(fs: seq<u32>, rest: Bytes)
    requires IsU32(|fs|)
    ensures DecKinded([0x00] + (EncVec(EncIdx, fs) + rest)) == Some((fs, rest))
  {
    assert ([0x00] + (EncVec(EncIdx, fs) + rest))[1..] == EncVec(EncIdx, fs) + rest;
    FuncsRoundTrip(fs, rest);
  }

  lemma PassiveElemBack(fs: seq<u32>, rest: Bytes)
    requires IsU32(|fs|)
    ensures DecElem(ULEB(1) + [0x00] + EncVec(EncIdx, fs) + rest) == Some((PassiveElem(FuncRef, fs), rest))
  {
    var funcs := EncVec(EncIdx, fs);
    Assoc(ULEB(1) + [0x00], funcs, rest);
    Assoc(ULEB(1), [0x00], funcs + rest);
    IdxRoundTrip(1, [0x00] + (funcs + rest));
    KindedRoundTrip(fs, rest);
  }

  lemma ActiveElemBack(offset: ConstExpr, fs: seq<u32>, rest: Bytes)
    requires IsU32(|fs|)
    ensures DecElem(ULEB(0) + EncInit(offset) + EncVec(EncIdx, fs) + rest) == Some((ActiveElem(0, offset, fs), rest))
  {
    var init, funcs := EncInit(offset), EncVec(EncIdx, fs);
    Assoc(ULEB(0) + init, funcs, rest);
    Assoc(ULEB(0), init, funcs + rest);
    IdxRoundTrip(0, init + (funcs + rest));
    InitRoundTrip(offset, funcs + rest);
    FuncsRoundTrip(fs, rest);
  }

  lemma TableElemBack(table: u32, offset: ConstExpr, fs: seq<u32>, rest: Bytes)
    requires IsU32(|fs|)
    ensures DecElem(ULEB(2) + ULEB(table) + EncInit(offset) + [0x00] + EncVec(EncIdx, fs) + rest)
            == Some((ActiveElem(table, offset, fs), rest))
  {
    var init, funcs := EncInit(offset), EncVec(EncIdx, fs);
    var tail := [0x00] + (funcs + rest);
    Assoc(ULEB(2) + ULEB(table) + init + [0x00], funcs, rest);
    Assoc(ULEB(2) + ULEB(table) + init, [0x00], funcs + rest);
    Assoc(ULEB(2) + ULEB(table), init, tail);
    Assoc(ULEB(2), ULEB(table), init + tail);
    IdxRoundTrip(2, ULEB(table) + (init + tail));
    IdxRoundTrip(table, init + tail);
    InitRoundTrip(offset, tail);
    KindedRoundTrip(fs, rest);
  }

  // A segment is read back exactly when it is not a passive segment of another reference type:
  // the encoding says function references for every passive segment.
  lemma ElemRoundTrip(e: ElemSeg, rest: Bytes)
    requires IsU32(|e.funcs|)
    ensures DecElem(EncElem(e) + rest) == Some((e, rest)) <==> (e.PassiveElem? ==> e.t == FuncRef)
  {
    match e
    case PassiveElem(_, fs) => PassiveElemBack(fs, rest);
    case ActiveElem(table, offset, fs) =>
      if table == 0 {
        ActiveElemBack(offset, fs, rest);
      } else {
        TableElemBack(table, offset, fs, rest);
      }
  }

  function EncData(d: DataSeg): Bytes {
    match d
    case PassiveData(bytes) => ULEB(1) + EncBytes(bytes)
    case ActiveData(mem, offset, bytes) =>
      if mem == 0 then ULEB(0) + EncInit(offset) + EncBytes(bytes)
      else ULEB(2) + ULEB(mem) + EncInit(offset) + EncBytes(bytes)
  }

  function DecPlaced(mem: u32, bs: Bytes): Option<(DataSeg, Bytes)> {
    match DecInit(bs) case None => None case Some((e, r1)) =>
      match DecBytes(r1) case None => None case Some((b, r2)) => Some((ActiveData(mem, e, b), r2))
  }

  function DecData(bs: Bytes): Option<(DataSeg, Bytes)> {
    match DecIdx(bs)
    case None => None
    case Some((flags, r1)) =>
      if flags == 1 then (match DecBytes(r1) case None => None case Some((b, r)) => Some((PassiveData(b), r)))
      else if flags == 0 then DecPlaced(0, r1)
      else if flags == 2 then (match DecIdx(r1) case None => None case Some((mem, r2)) => DecPlaced(mem, r2))
      else None
  }

  lemma PlacedRoundTrip(mem: u32, offset: ConstExpr, bytes: Bytes, rest: Bytes)
    requires IsU32(|bytes|)
    ensures DecPlaced(mem, EncInit(offset) + (EncBytes(bytes) + rest)) == Some((ActiveData(mem, offset, bytes), rest))
  {
    InitRoundTrip(offset, EncBytes(bytes) + rest);
    BytesRoundTrip(bytes, rest);
  }

  lemma DataRoundTrip(d: DataSeg, rest: Bytes)
    requires IsU32(|d.bytes|)
    ensures DecData(EncData(d) + rest) == Some((d, rest))
  {
    var bytes := EncBytes(d.bytes);
    match d
    case PassiveData(_) =>
      Assoc(ULEB(1), bytes, rest);
      IdxRoundTrip(1, bytes + rest);
      BytesRoundTrip(d.bytes, rest);
    case ActiveData(mem, offset, _) =>
      var init := EncInit(offset);
      PlacedRoundTrip(mem, offset, d.bytes, rest);
      if mem == 0 {
        Assoc(ULEB(0) + init, bytes, rest);
        Assoc(ULEB(0), init, bytes + rest);
        IdxRoundTrip(0, init + (bytes + rest));
      } else {
        Assoc(ULEB(2) + ULEB(mem) + init, bytes, rest);
        Assoc(ULEB(2) + ULEB(mem), init, bytes + rest);
        Assoc(ULEB(2), ULEB(mem), init + (bytes + rest));
        IdxRoundTrip(2, ULEB(mem) + (init + (bytes + rest)));
        IdxRoundTrip(mem, init + (bytes + rest));
      }
  }
}
