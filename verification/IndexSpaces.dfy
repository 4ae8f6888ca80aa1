/**
 The index spaces of a module and the table of its defined functions, as values: which entity an index
 denotes, and what handing in bodies does.
 */
module IndexSpaces {
  import opened Ints
  import opened Codec
  import opened Binary
  import opened ModuleFormat

  // A finished body, as the bytes of its two buffers.
  datatype BodyBytes = BodyBytes(locals: Bytes, code: Bytes)

  datatype DefinedFunc = DefinedFunc(sig: u32, body: Option<BodyBytes>)

  function KindOfDesc(d: Desc): ExternKind {
    match d
    case FuncDesc(_) => ExternFunc
    case TableDesc(_, _) => ExternTable
    case MemDesc(_) => ExternMem
    case GlobalDesc(_) => ExternGlobal
  }

  // The entries of one kind, in order.
  function OfKind(ds: seq<Desc>, kind: ExternKind): (r: seq<Desc>)
    ensures |r| <= |ds| && forall k | 0 <= k < |r| :: KindOfDesc(r[k]) == kind
  {
    if ds == [] then []
    else
      var last := ds[|ds| - 1];
      OfKind(ds[..|ds| - 1], kind) + if KindOfDesc(last) == kind then [last] else []
  }

  // A space of the given kind after d was declared.
  function With(space: seq<Desc>, kind: ExternKind, d: Desc): seq<Desc> {
    if KindOfDesc(d) == kind then space + [d] else space
  }

  lemma OfKindSnoc(ds: seq<Desc>, d: Desc, kind: ExternKind)
    ensures OfKind(ds + [d], kind) == With(OfKind(ds, kind), kind, d)
  {
    assert (ds + [d])[..|ds|] == ds;
  }

  // Later entries only add to the end: an index that meant something goes on meaning it.
  lemma {:induction false} OfKindPrefix(a: seq<Desc>, b: seq<Desc>, kind: ExternKind)
    requires a <= b
    ensures OfKind(a, kind) <= OfKind(b, kind)
    decreases |b|
  {
    if |a| < |b| {
      OfKindPrefix(a, b[..|b| - 1], kind);
      assert OfKind(b[..|b| - 1], kind) <= OfKind(b, kind);
    } else {
      assert a == b;
    }
  }

  // Walking a list: one more entry, and still a beginning of all of them.
  lemma NextOfKind(ds: seq<Desc>, i: nat, kind: ExternKind)
    requires i < |ds|
    ensures OfKind(ds[..i + 1], kind) == With(OfKind(ds[..i], kind), kind, ds[i])
    ensures OfKind(ds[..i + 1], kind) <= OfKind(ds, kind)
  {
    assert ds[..i + 1] == ds[..i] + [ds[i]];
    OfKindSnoc(ds[..i], ds[i], kind);
    OfKindPrefix(ds[..i + 1], ds, kind);
  }

  function DescsOf(imports: seq<Import>): (r: seq<Desc>)
    ensures |r| == |imports| && forall k | 0 <= k < |r| :: r[k] == imports[k].desc
  {
    seq(|imports|, k requires 0 <= k < |imports| => imports[k].desc)
  }

  // The definitions of a kind, as they would be described in an import.
  function Definitions(
    funcs: seq<DefinedFunc>, tables: seq<TableDef>, mems: seq<Limits>, globals: seq<GlobalDef>, kind: ExternKind)
    : (r: seq<Desc>)
    ensures forall k | 0 <= k < |r| :: KindOfDesc(r[k]) == kind
  {
    match kind
    case ExternFunc => seq(|funcs|, k requires 0 <= k < |funcs| => FuncDesc(funcs[k].sig))
    case ExternTable => seq(|tables|, k requires 0 <= k < |tables| => TableDesc(tables[k].elem, tables[k].limits))
    case ExternMem => seq(|mems|, k requires 0 <= k < |mems| => MemDesc(mems[k]))
    case ExternGlobal => seq(|globals|, k requires 0 <= k < |globals| => GlobalDesc(globals[k].gtype))
  }

  // An index space: the imports of its kind, then the definitions.
  function SpaceOf(
    imports: seq<Import>, funcs: seq<DefinedFunc>, tables: seq<TableDef>, mems: seq<Limits>,
    globals: seq<GlobalDef>, kind: ExternKind)
    : (r: seq<Desc>)
    ensures forall k | 0 <= k < |r| :: KindOfDesc(r[k]) == kind
  {
    OfKind(DescsOf(imports), kind) + Definitions(funcs, tables, mems, globals, kind)
  }

  lemma FuncsGrow(
    xs: seq<Import>, fs: seq<DefinedFunc>, ts: seq<TableDef>, ms: seq<Limits>, gs: seq<GlobalDef>, f: DefinedFunc)
    ensures forall kind ::
              SpaceOf(xs, fs + [f], ts, ms, gs, kind) == With(SpaceOf(xs, fs, ts, ms, gs, kind), kind, FuncDesc(f.sig))
  {}

  lemma TablesGrow(
    xs: seq<Import>, fs: seq<DefinedFunc>, ts: seq<TableDef>, ms: seq<Limits>, gs: seq<GlobalDef>, t: TableDef)
    ensures forall kind ::
              SpaceOf(xs, fs, ts + [t], ms, gs, kind)
              == With(SpaceOf(xs, fs, ts, ms, gs, kind), kind, TableDesc(t.elem, t.limits))
  {}

  lemma MemsGrow(
    xs: seq<Import>, fs: seq<DefinedFunc>, ts: seq<TableDef>, ms: seq<Limits>, gs: seq<GlobalDef>, m: Limits)
    ensures forall kind ::
              SpaceOf(xs, fs, ts, ms + [m], gs, kind) == With(SpaceOf(xs, fs, ts, ms, gs, kind), kind, MemDesc(m))
  {}

  lemma GlobalsGrow(
    xs: seq<Import>, fs: seq<DefinedFunc>, ts: seq<TableDef>, ms: seq<Limits>, gs: seq<GlobalDef>, g: GlobalDef)
    ensures forall kind ::
              SpaceOf(xs, fs, ts, ms, gs + [g], kind)
              == With(SpaceOf(xs, fs, ts, ms, gs, kind), kind, GlobalDesc(g.gtype))
  {}

  // Why imports come first: behind definitions, an import d would leave every handle its meaning only
  // if all the definitions already were just like d.
  lemma {:induction false} LateImportShifts(imported: seq<Desc>, defined: seq<Desc>, d: Desc)
    ensures imported + defined <= imported + [d] + defined <==> forall k | 0 <= k < |defined| :: defined[k] == d
  {
    var now, later := imported + defined, imported + [d] + defined;
    if now <= later {
      AllLike(defined, d, imported, |defined|);
    }
  }

  lemma {:induction false} AllLike(defined: seq<Desc>, d: Desc, imported: seq<Desc>, n: nat)
    requires n <= |defined| && imported + defined <= imported + [d] + defined
    ensures forall k | 0 <= k < n :: defined[k] == d
  {
    if n > 0 {
      AllLike(defined, d, imported, n - 1);
      var at := |imported| + n - 1;
      assert (imported + defined)[at] == (imported + [d] + defined)[at];
    }
  }

  /* Handles. */

  // Whatever is declared later, the index handed out for the k-th declaration denotes that entity.
  lemma HandleKeepsItsMeaning(ds: seq<Desc>, k: nat)
    requires k < |ds|
    ensures var kind, index := KindOfDesc(ds[k]), |OfKind(ds[..k], KindOfDesc(ds[k]))|;
      index < |OfKind(ds, kind)| && OfKind(ds, kind)[index] == ds[k]
  {
    assert ds[..k + 1] == ds[..k] + [ds[k]];
    OfKindSnoc(ds[..k], ds[k], KindOfDesc(ds[k]));
    OfKindPrefix(ds[..k + 1], ds, KindOfDesc(ds[k]));
  }

  // Every index of a space was handed out, and only once.
  lemma {:induction false} IndexIsAHandle(ds: seq<Desc>, kind: ExternKind, index: nat) returns (k: nat)
    requires index < |OfKind(ds, kind)|
    ensures k < |ds| && KindOfDesc(ds[k]) == kind && |OfKind(ds[..k], kind)| == index
    ensures forall j | 0 <= j < |ds| && KindOfDesc(ds[j]) == kind && |OfKind(ds[..j], kind)| == index :: j == k
    decreases |ds|
  {
    var init, last := ds[..|ds| - 1], ds[|ds| - 1];
    if index < |OfKind(init, kind)| {
      k := IndexIsAHandle(init, kind, index);
      assert init[..k] == ds[..k];
      forall j | 0 <= j < |ds| && KindOfDesc(ds[j]) == kind && |OfKind(ds[..j], kind)| == index
        ensures j == k
      {
        assert j < |init| ==> init[..j] == ds[..j] && init[j] == ds[j];
      }
    } else {
      k := |init|;
      forall j | 0 <= j < |ds| && KindOfDesc(ds[j]) == kind && |OfKind(ds[..j], kind)| == index
        ensures j == k
      {
        if j < |init| {
          assert init[..j] == ds[..j];
          HandleKeepsItsMeaning(init, j);
        }
      }
    }
  }

  /* Bodies. */

  predicate AllDefined(funcs: seq<DefinedFunc>) {
    forall k | 0 <= k < |funcs| :: funcs[k].body.Some?
  }

  // The functions as the function and code sections list them.
  function Finished(funcs: seq<DefinedFunc>): (r: seq<FuncDef>)
    ensures |r| == |funcs| && forall k | 0 <= k < |r| :: r[k].sig == funcs[k].sig
    ensures forall k | 0 <= k < |r| && funcs[k].body.Some? ::
              r[k].body == funcs[k].body.value.locals + funcs[k].body.value.code
  {
    seq(|funcs|, k requires 0 <= k < |funcs| =>
      FuncDef(funcs[k].sig, if funcs[k].body.None? then [] else funcs[k].body.value.locals + funcs[k].body.value.code))
  }

  datatype Definition = Definition(at: nat, body: BodyBytes)

  function Define(funcs: seq<DefinedFunc>, d: Definition): (r: seq<DefinedFunc>)
    requires d.at < |funcs|
    ensures |r| == |funcs|
  {
    funcs[d.at := DefinedFunc(funcs[d.at].sig, Some(d.body))]
  }

  function DefineAll(funcs: seq<DefinedFunc>, ds: seq<Definition>): (r: seq<DefinedFunc>)
    requires forall d | d in ds :: d.at < |funcs|
    ensures |r| == |funcs|
  {
    if ds == [] then funcs else Define(DefineAll(funcs, ds[..|ds| - 1]), ds[|ds| - 1])
  }

  predicate DistinctPlaces(ds: seq<Definition>) {
    forall i, j | 0 <= i < j < |ds| :: ds[i].at != ds[j].at
  }

  // A function has the body defined for it, and its signature in any case.
  lemma {:induction false} DefinedAt(funcs: seq<DefinedFunc>, ds: seq<Definition>, k: nat)
    requires k < |funcs| && DistinctPlaces(ds) && forall d | d in ds :: d.at < |funcs|
    ensures DefineAll(funcs, ds)[k].sig == funcs[k].sig
    ensures forall d | d in ds && d.at == k :: DefineAll(funcs, ds)[k].body == Some(d.body)
    ensures (forall d | d in ds :: d.at != k) ==> DefineAll(funcs, ds)[k] == funcs[k]
    decreases |ds|
  {
    if ds != [] {
      DefinedAt(funcs, ds[..|ds| - 1], k);
    }
  }

  // The order in which bodies are handed in does not matter.
  lemma DefinitionsCommute(funcs: seq<DefinedFunc>, a: seq<Definition>, b: seq<Definition>)
    requires DistinctPlaces(a) && DistinctPlaces(b) && forall d :: d in a <==> d in b
    requires forall d | d in a :: d.at < |funcs|
    ensures DefineAll(funcs, a) == DefineAll(funcs, b)
  {
    forall k | 0 <= k < |funcs|
      ensures DefineAll(funcs, a)[k] == DefineAll(funcs, b)[k]
    {
      DefinedAt(funcs, a, k);
      DefinedAt(funcs, b, k);
      if d :| d in a && d.at == k {
        assert d in b;
      }
    }
  }

  lemma SameSignatures(
    imports: seq<Import>, a: seq<DefinedFunc>, b: seq<DefinedFunc>, tables: seq<TableDef>, mems: seq<Limits>,
    globals: seq<GlobalDef>)
    requires |a| == |b| && forall k | 0 <= k < |a| :: a[k].sig == b[k].sig
    ensures forall kind ::
              SpaceOf(imports, a, tables, mems, globals, kind) == SpaceOf(imports, b, tables, mems, globals, kind)
  {}

  // Functions are declared with signatures that have been interned.
  predicate SigsBelow(space: seq<Desc>, n: nat)
    requires forall k | 0 <= k < |space| :: space[k].FuncDesc?
  {
    forall k | 0 <= k < |space| :: space[k].sig < n
  }

  lemma SigsBelowSnoc(space: seq<Desc>, sig: u32, n: nat)
    requires forall k | 0 <= k < |space| :: space[k].FuncDesc?
    ensures SigsBelow(space + [FuncDesc(sig)], n) <==> SigsBelow(space, n) && sig < n
  {
    var more := space + [FuncDesc(sig)];
    assert more[|space|] == FuncDesc(sig) && more[..|space|] == space;
    assert forall k | 0 <= k < |space| :: more[k] == space[k];
  }
}
