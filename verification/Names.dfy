/**
 The name section: module, function, local and global names, each map sorted by index. Sorting is
 the library's std::sort; with distinct keys its result does not depend on how it sorts.
 */
module Names {
  import opened Ints
  import opened Leb128
  import opened Codec

  datatype Named = Named(index: u32, name: Bytes)
  datatype LocalName = LocalName(func: u32, index: u32, name: Bytes)
  datatype LocalGroup = LocalGroup(func: u32, names: seq<Named>)

  datatype NameData = NameData(
    moduleName: Bytes, funcs: seq<Named>, locals: seq<LocalName>, globals: seq<Named>)

  /* Sorting. */

  predicate Ascending<T>(key: T -> int, xs: seq<T>) {
    forall i, j | 0 <= i < j < |xs| :: key(xs[i]) <= key(xs[j])
  }

  predicate DistinctKeys<T>(key: T -> int, xs: seq<T>) {
    forall i, j | 0 <= i < j < |xs| :: key(xs[i]) != key(xs[j])
  }

  function Insert<T>(key: T -> int, x: T, xs: seq<T>): (r: seq<T>)
    ensures |r| == |xs| + 1
  {
    if xs == [] || key(x) < key(xs[0]) then [x] + xs else [xs[0]] + Insert(key, x, xs[1..])
  }

  function SortBy<T>(key: T -> int, xs: seq<T>): (r: seq<T>)
    ensures |r| == |xs|
  {
    if xs == [] then [] else Insert(key, xs[|xs| - 1], SortBy(key, xs[..|xs| - 1]))
  }

  lemma SplitFirst<T>(xs: seq<T>)
    requires xs != []
    ensures multiset(xs) == multiset{xs[0]} + multiset(xs[1..])
  {
    assert xs == [xs[0]] + xs[1..];
  }

  lemma {:induction false} InsertPermutes<T>(key: T -> int, x: T, xs: seq<T>)
    ensures multiset(Insert(key, x, xs)) == multiset{x} + multiset(xs)
    decreases |xs|
  {
    var r := Insert(key, x, xs);
    SplitFirst(r);
    if xs == [] || key(x) < key(xs[0]) {
      assert r[1..] == xs;
    } else {
      assert r[1..] == Insert(key, x, xs[1..]);
      InsertPermutes(key, x, xs[1..]);
      SplitFirst(xs);
    }
  }

  lemma {:induction false} InsertAscends<T>(key: T -> int, x: T, xs: seq<T>)
    requires Ascending(key, xs)
    ensures Ascending(key, Insert(key, x, xs))
    decreases |xs|
  {
    if xs != [] && key(x) >= key(xs[0]) {
      var rest := Insert(key, x, xs[1..]);
      InsertAscends(key, x, xs[1..]);
      InsertPermutes(key, x, xs[1..]);
      forall k | 0 <= k < |rest|
        ensures key(xs[0]) <= key(rest[k])
      {
        assert rest[k] in multiset(rest);
        assert rest[k] == x || rest[k] in xs[1..];
      }
    }
  }

  // Sorting orders by key and neither adds nor loses entries.
  lemma {:induction false} SortFacts<T>(key: T -> int, xs: seq<T>)
    ensures multiset(SortBy(key, xs)) == multiset(xs) && Ascending(key, SortBy(key, xs))
    ensures forall x | x in SortBy(key, xs) :: x in xs
    decreases |xs|
  {
    if xs != [] {
      var init, last := xs[..|xs| - 1], xs[|xs| - 1];
      SortFacts(key, init);
      InsertSorted(key, init, last, SortBy(key, init));
      assert xs == init + [last];
    }
    SameElements(SortBy(key, xs), xs);
  }

  lemma InsertSorted<T>(key: T -> int, init: seq<T>, last: T, sorted: seq<T>)
    requires multiset(sorted) == multiset(init) && Ascending(key, sorted)
    ensures multiset(Insert(key, last, sorted)) == multiset(init + [last]) && Ascending(key, Insert(key, last, sorted))
  {
    InsertPermutes(key, last, sorted);
    InsertAscends(key, last, sorted);
  }

  lemma SameElements<T>(a: seq<T>, b: seq<T>)
    requires multiset(a) == multiset(b)
    ensures forall x | x in a :: x in b
  {
    forall x | x in a
      ensures x in b
    {
      assert x in multiset(a);
    }
  }

  lemma SameFirst<T>(key: T -> int, a: seq<T>, b: seq<T>)
    requires multiset(a) == multiset(b) && Ascending(key, a) && Ascending(key, b) && DistinctKeys(key, a)
    requires a != [] && b != []
    ensures a[0] == b[0]
  {
    assert b[0] in multiset(a) && a[0] in multiset(b);
    var i :| 0 <= i < |a| && a[i] == b[0];
    var j :| 0 <= j < |b| && b[j] == a[0];
    assert key(a[0]) <= key(a[i]) && key(b[0]) <= key(b[j]);
  }

  lemma SameRest<T>(a: seq<T>, b: seq<T>)
    requires a != [] && b != [] && a[0] == b[0] && multiset(a) == multiset(b)
    ensures multiset(a[1..]) == multiset(b[1..])
  {
    SplitFirst(a);
    SplitFirst(b);
    assert multiset(a[1..]) == multiset(a) - multiset{a[0]};
    assert multiset(b[1..]) == multiset(b) - multiset{b[0]};
  }

  lemma RestAscends<T>(key: T -> int, a: seq<T>)
    requires a != [] && Ascending(key, a)
    ensures Ascending(key, a[1..]) && (DistinctKeys(key, a) ==> DistinctKeys(key, a[1..]))
  {}

  // Any correct sort of entries with distinct keys gives the same result.
  lemma {:induction false} SortIsUnique<T>(key: T -> int, a: seq<T>, b: seq<T>)
    requires multiset(a) == multiset(b) && Ascending(key, a) && Ascending(key, b) && DistinctKeys(key, a)
    ensures a == b
    decreases |a|
  {
    assert |a| == |multiset(a)| == |multiset(b)| == |b|;
    if a != [] {
      SameFirst(key, a, b);
      SameRest(a, b);
      RestAscends(key, a);
      RestAscends(key, b);
      SortIsUnique(key, a[1..], b[1..]);
      assert a == [a[0]] + a[1..] && b == [b[0]] + b[1..];
    }
  }

  lemma TwoPlaces<T>(xs: seq<T>, i: nat, j: nat)
    requires i < j < |xs| && xs[i] == xs[j]
    ensures multiset(xs)[xs[i]] >= 2
  {
    assert xs == xs[..j] + xs[j..] && xs[j..] == [xs[j]] + xs[j + 1..];
    assert xs[..j][i] == xs[i];
  }

  lemma {:induction false} PlacesOf<T>(xs: seq<T>, x: T) returns (i: nat, j: nat)
    requires multiset(xs)[x] >= 2
    ensures i < j < |xs| && xs[i] == xs[j] == x
    decreases |xs|
  {
    var init, last := xs[..|xs| - 1], xs[|xs| - 1];
    assert xs == init + [last];
    if multiset(init)[x] >= 2 {
      i, j := PlacesOf(init, x);
    } else {
      assert x in multiset(init) && last == x;
      i :| 0 <= i < |init| && init[i] == x;
      j := |init|;
    }
  }

  // Reordering does not bring keys together or apart.
  lemma SameKeys<T>(key: T -> int, a: seq<T>, b: seq<T>)
    requires multiset(a) == multiset(b) && DistinctKeys(key, b)
    ensures DistinctKeys(key, a)
  {
    forall i, j | 0 <= i < j < |a|
      ensures key(a[i]) != key(a[j])
    {
      if a[i] == a[j] {
        TwoPlaces(a, i, j);
        var k, l := PlacesOf(b, a[i]);
      } else {
        assert a[i] in multiset(b) && a[j] in multiset(b);
        var k :| 0 <= k < |b| && b[k] == a[i];
        var l :| 0 <= l < |b| && b[l] == a[j];
      }
    }
  }

  function IndexKey(n: Named): int {
    n.index
  }

  // Rows are ordered by function, then by local.
  function RowKey(r: LocalName): int {
    r.func * 0x1_0000_0000 + r.index
  }

  /* Name maps. */

  function EncNamed(n: Named): Bytes {
    ULEB(n.index) + EncBytes(n.name)
  }

  function DecNamed(bs: Bytes): Option<(Named, Bytes)> {
    match DecIdx(bs)
    case None => None
    case Some((i, r1)) => match DecName(r1) case None => None case Some((s, r2)) => Some((Named(i, s), r2))
  }

  lemma NamedReads(n: Named)
    requires NameOk(n.name)
    ensures Reads(EncNamed, DecNamed, n)
  {
    forall rest: Bytes
      ensures DecNamed(EncNamed(n) + rest) == Some((n, rest))
    {
      Assoc(ULEB(n.index), EncBytes(n.name), rest);
      IdxRoundTrip(n.index, EncBytes(n.name) + rest);
      NameRoundTrip(n.name, rest);
    }
  }

  predicate MapOk(m: seq<Named>) {
    IsU32(|m|) && forall n | n in m :: NameOk(n.name)
  }

  // A name map lists each index once, in increasing order (section 7.4.1).
  predicate MapSorted(m: seq<Named>) {
    forall i, j | 0 <= i < j < |m| :: m[i].index < m[j].index
  }

  // No index has two names.
  predicate NamedOnce(m: seq<Named>) {
    forall i, j | 0 <= i < j < |m| :: m[i].index != m[j].index
  }

  // The library sorts by index and keeps what was named twice.
  lemma SortedIffOnce(m: seq<Named>)
    ensures MapSorted(SortBy(IndexKey, m)) <==> NamedOnce(m)
    ensures forall i, j | 0 <= i < j < |m| :: SortBy(IndexKey, m)[i].index <= SortBy(IndexKey, m)[j].index
  {
    var s := SortBy(IndexKey, m);
    SortFacts(IndexKey, m);
    if NamedOnce(m) {
      assert DistinctKeys(IndexKey, m);
      SameKeys(IndexKey, s, m);
    }
    if MapSorted(s) {
      assert DistinctKeys(IndexKey, s);
      SameKeys(IndexKey, m, s);
    }
    assert forall i, j | 0 <= i < j < |m| :: IndexKey(s[i]) <= IndexKey(s[j]);
  }

  lemma MapRoundTrip(m: seq<Named>, rest: Bytes)
    requires MapOk(m)
    ensures DecVec(DecNamed, EncVec(EncNamed, m) + rest) == Some((m, rest))
  {
    forall n | n in m
      ensures Reads(EncNamed, DecNamed, n)
    {
      NamedReads(n);
    }
    VecRoundTrip(EncNamed, DecNamed, m, rest);
  }

  /* Local names, grouped by function. */

  // How many rows at the front name the same function.
  function RunLength(rows: seq<LocalName>): (j: nat)
    requires rows != []
    ensures 1 <= j <= |rows|
    ensures forall k | 0 <= k < j :: rows[k].func == rows[0].func
    ensures j < |rows| ==> rows[j].func != rows[0].func
  {
    if |rows| == 1 || rows[1].func != rows[0].func then 1
    else
      var j := RunLength(rows[1..]);
      assert forall k | 1 <= k < j + 1 :: rows[k] == rows[1..][k - 1];
      1 + j
  }

  function Entries(rows: seq<LocalName>): (r: seq<Named>)
    ensures |r| == |rows| && forall k | 0 <= k < |rows| :: r[k] == Named(rows[k].index, rows[k].name)
  {
    if rows == [] then []
    else Entries(rows[..|rows| - 1]) + [Named(rows[|rows| - 1].index, rows[|rows| - 1].name)]
  }

  function Groups(rows: seq<LocalName>): seq<LocalGroup>
    decreases |rows|
  {
    if rows == [] then []
    else
      var j := RunLength(rows);
      [LocalGroup(rows[0].func, Entries(rows[..j]))] + Groups(rows[j..])
  }

  function Rows(g: LocalGroup): (r: seq<LocalName>)
    ensures |r| == |g.names|
    ensures forall k | 0 <= k < |r| :: r[k] == LocalName(g.func, g.names[k].index, g.names[k].name)
  {
    seq(|g.names|, k requires 0 <= k < |g.names| => LocalName(g.func, g.names[k].index, g.names[k].name))
  }

  function Ungroup(gs: seq<LocalGroup>): seq<LocalName> {
    if gs == [] then [] else Rows(gs[0]) + Ungroup(gs[1..])
  }

  lemma FirstGroup(rows: seq<LocalName>)
    requires rows != []
    ensures Rows(LocalGroup(rows[0].func, Entries(rows[..RunLength(rows)]))) == rows[..RunLength(rows)]
  {}

  lemma GroupsStep(rows: seq<LocalName>, run: seq<LocalName>, rest: seq<LocalName>)
    requires rows == run + rest && run != [] && |run| == RunLength(rows)
    ensures Groups(rows) == [LocalGroup(rows[0].func, Entries(run))] + Groups(rest)
  {
    assert rows[..|run|] == run && rows[|run|..] == rest;
  }

  lemma UngroupStep(first: LocalGroup, rest: seq<LocalGroup>)
    ensures Ungroup([first] + rest) == Rows(first) + Ungroup(rest)
  {
    assert ([first] + rest)[1..] == rest;
  }

  lemma RowsBack(rows: seq<LocalName>, j: nat, first: LocalGroup, rest: seq<LocalGroup>)
    requires j <= |rows| && Rows(first) == rows[..j] && Ungroup(rest) == rows[j..]
    ensures Ungroup([first] + rest) == rows
  {
    UngroupStep(first, rest);
    assert rows[..j] + rows[j..] == rows;
  }

  // Grouping loses nothing.
  lemma {:induction false} GroupsRoundTrip(rows: seq<LocalName>)
    ensures Ungroup(Groups(rows)) == rows
    decreases |rows|
  {
    if rows != [] {
      var j := RunLength(rows);
      FirstGroup(rows);
      GroupsRoundTrip(rows[j..]);
      RowsBack(rows, j, LocalGroup(rows[0].func, Entries(rows[..j])), Groups(rows[j..]));
      GroupsStep(rows, rows[..j], rows[j..]);
    }
  }

  // Groups in increasing order of functions, each with a name map.
  predicate GroupsSorted(gs: seq<LocalGroup>) {
    && (forall i, j | 0 <= i < j < |gs| :: gs[i].func < gs[j].func)
    && forall g | g in gs :: MapSorted(g.names)
  }

  // No local of a function has two names.
  predicate RowsOnce(rows: seq<LocalName>) {
    forall i, j | 0 <= i < j < |rows| :: rows[i].func != rows[j].func || rows[i].index != rows[j].index
  }

  // By function, and then by local.
  predicate RowsAscend(rows: seq<LocalName>) {
    forall i, j | 0 <= i < j < |rows| ::
      rows[i].func < rows[j].func || (rows[i].func == rows[j].func && rows[i].index <= rows[j].index)
  }

  lemma RowKeys(a: LocalName, b: LocalName)
    ensures RowKey(a) == RowKey(b) <==> a.func == b.func && a.index == b.index
    ensures RowKey(a) <= RowKey(b) <==> a.func < b.func || (a.func == b.func && a.index <= b.index)
  {}

  lemma OnceIsDistinct(rows: seq<LocalName>)
    ensures RowsOnce(rows) <==> DistinctKeys(RowKey, rows)
  {
    forall i, j | 0 <= i < j < |rows|
      ensures RowKey(rows[i]) == RowKey(rows[j]) <==> rows[i].func == rows[j].func && rows[i].index == rows[j].index
    {
      RowKeys(rows[i], rows[j]);
    }
  }

  lemma RowsSorted(m: seq<LocalName>)
    ensures RowsAscend(SortBy(RowKey, m)) && (RowsOnce(SortBy(RowKey, m)) <==> RowsOnce(m))
  {
    var s := SortBy(RowKey, m);
    SortFacts(RowKey, m);
    forall i, j | 0 <= i < j < |s|
      ensures s[i].func < s[j].func || (s[i].func == s[j].func && s[i].index <= s[j].index)
    {
      RowKeys(s[i], s[j]);
    }
    OnceIsDistinct(m);
    OnceIsDistinct(s);
    if RowsOnce(m) {
      SameKeys(RowKey, s, m);
    }
    if RowsOnce(s) {
      SameKeys(RowKey, m, s);
    }
  }

  lemma LaterRows(rows: seq<LocalName>, j: nat)
    requires 1 <= j <= |rows| && RowsAscend(rows) && (j < |rows| ==> rows[j].func != rows[0].func)
    ensures RowsAscend(rows[j..]) && forall r | r in rows[j..] :: rows[0].func < r.func
  {
    forall r | r in rows[j..]
      ensures rows[0].func < r.func
    {
      var k :| 0 <= k < |rows[j..]| && rows[j..][k] == r;
      assert rows[j + k] == r && rows[0].func < rows[j].func;
    }
  }

  // Behind the first run come only later functions.
  lemma RestIsLater(rows: seq<LocalName>)
    requires rows != [] && RowsAscend(rows)
    ensures RowsAscend(rows[RunLength(rows)..])
    ensures forall r | r in rows[RunLength(rows)..] :: rows[0].func < r.func
  {
    LaterRows(rows, RunLength(rows));
  }

  lemma RunSorted(rows: seq<LocalName>)
    requires rows != [] && RowsAscend(rows)
    ensures MapSorted(Entries(rows[..RunLength(rows)])) <==> RowsOnce(rows[..RunLength(rows)])
  {}

  lemma OnceParts(rows: seq<LocalName>, j: nat)
    requires j <= |rows| && forall a, b | a in rows[..j] && b in rows[j..] :: a.func != b.func
    ensures RowsOnce(rows) <==> RowsOnce(rows[..j]) && RowsOnce(rows[j..])
  {
    if RowsOnce(rows[..j]) && RowsOnce(rows[j..]) {
      forall i, k | 0 <= i < k < |rows|
        ensures rows[i].func != rows[k].func || rows[i].index != rows[k].index
      {
        if k < j {
          assert rows[..j][i] == rows[i] && rows[..j][k] == rows[k];
        } else if i >= j {
          assert rows[j..][i - j] == rows[i] && rows[j..][k - j] == rows[k];
        } else {
          assert rows[..j][i] == rows[i] && rows[j..][k - j] == rows[k];
        }
      }
    }
  }

  lemma {:induction false} GroupsOf(rows: seq<LocalName>)
    ensures forall g | g in Groups(rows) :: exists r :: r in rows && r.func == g.func
    decreases |rows|
  {
    if rows != [] {
      var j := RunLength(rows);
      GroupsOf(rows[j..]);
      forall g | g in Groups(rows)
        ensures exists r :: r in rows && r.func == g.func
      {
        if g in Groups(rows[j..]) {
          var r :| r in rows[j..] && r.func == g.func;
          assert r in rows;
        } else {
          assert rows[0] in rows;
        }
      }
    }
  }

  lemma FirstGroupSorted(first: LocalGroup, rest: seq<LocalGroup>)
    requires forall g | g in rest :: first.func < g.func
    ensures GroupsSorted([first] + rest) <==> MapSorted(first.names) && GroupsSorted(rest)
  {
    var gs := [first] + rest;
    assert gs[0] == first && gs[1..] == rest;
    if GroupsSorted(gs) {
      forall i, j | 0 <= i < j < |rest|
        ensures rest[i].func < rest[j].func
      {
        assert gs[i + 1] == rest[i] && gs[j + 1] == rest[j];
      }
      assert forall g | g in rest :: g in gs;
    }
  }

  // Sorted rows make sorted groups if and only if no local is named twice.
  lemma {:induction false} GroupsSortedIffOnce(rows: seq<LocalName>)
    requires RowsAscend(rows)
    ensures GroupsSorted(Groups(rows)) <==> RowsOnce(rows)
    decreases |rows|
  {
    if rows != [] {
      var j := RunLength(rows);
      var rest := Groups(rows[j..]);
      RestIsLater(rows);
      RunSorted(rows);
      OnceParts(rows, j);
      GroupsSortedIffOnce(rows[j..]);
      GroupsOf(rows[j..]);
      FirstGroupSorted(LocalGroup(rows[0].func, Entries(rows[..j])), rest);
    }
  }

  function EncGroup(g: LocalGroup): Bytes {
    ULEB(g.func) + EncVec(EncNamed, g.names)
  }

  function DecGroup(bs: Bytes): Option<(LocalGroup, Bytes)> {
    match DecIdx(bs)
    case None => None
    case Some((f, r1)) =>
      match DecVec(DecNamed, r1) case None => None case Some((ns, r2)) => Some((LocalGroup(f, ns), r2))
  }

  lemma GroupReads(g: LocalGroup)
    requires MapOk(g.names)
    ensures Reads(EncGroup, DecGroup, g)
  {
    forall rest: Bytes
      ensures DecGroup(EncGroup(g) + rest) == Some((g, rest))
    {
      Assoc(ULEB(g.func), EncVec(EncNamed, g.names), rest);
      IdxRoundTrip(g.func, EncVec(EncNamed, g.names) + rest);
      MapRoundTrip(g.names, rest);
    }
  }

  lemma {:induction false} GroupsFit(rows: seq<LocalName>)
    requires IsU32(|rows|) && forall r | r in rows :: NameOk(r.name)
    ensures |Groups(rows)| <= |rows| && forall g | g in Groups(rows) :: MapOk(g.names)
    decreases |rows|
  {
    if rows != [] {
      var j := RunLength(rows);
      GroupsFit(rows[j..]);
      forall n | n in Entries(rows[..j])
        ensures NameOk(n.name)
      {
        var k :| 0 <= k < j && Entries(rows[..j])[k] == n;
        assert rows[k] in rows;
      }
    }
  }

  /* The section. */

  predicate NoNames(n: NameData) {
    n.moduleName == [] && n.funcs == [] && n.locals == [] && n.globals == []
  }

  function NameChunks(n: NameData): seq<Chunk> {
    var c0 := Add([], 0, n.moduleName != [], EncBytes(n.moduleName));
    var c1 := Add(c0, 1, n.funcs != [], EncVec(EncNamed, SortBy(IndexKey, n.funcs)));
    var c2 := Add(c1, 2, n.locals != [], EncVec(EncGroup, Groups(SortBy(RowKey, n.locals))));
    Add(c2, 7, n.globals != [], EncVec(EncNamed, SortBy(IndexKey, n.globals)))
  }

  // The names as the section lists them.
  function SortedNames(n: NameData): NameData {
    NameData(n.moduleName, SortBy(IndexKey, n.funcs), SortBy(RowKey, n.locals), SortBy(IndexKey, n.globals))
  }

  function DecModuleName(section: Option<Bytes>): Option<Bytes> {
    match section
    case None => Some([])
    case Some(bs) =>
      match DecName(bs) case None => None case Some((s, rest)) => if rest == [] then Some(s) else None
  }

  function NamesIn(cs: seq<Chunk>): Option<NameData> {
    var (m, f, l, g) := (DecModuleName(Lookup(cs, 0)), DecWhole(DecNamed, Lookup(cs, 1)),
                         DecWhole(DecGroup, Lookup(cs, 2)), DecWhole(DecNamed, Lookup(cs, 7)));
    if m.None? || f.None? || l.None? || g.None? then None
    else if !MapSorted(f.value) || !GroupsSorted(l.value) || !MapSorted(g.value) then None
    else Some(NameData(m.value, f.value, Ungroup(l.value), g.value))
  }

  function DecNames(bs: Bytes): Option<NameData> {
    match DecChunks(bs) case None => None case Some(cs) => NamesIn(cs)
  }

  ghost predicate NamesOk(n: NameData) {
    && NameOk(n.moduleName) && MapOk(n.funcs) && MapOk(n.globals)
    && IsU32(|n.locals|) && (forall r | r in n.locals :: NameOk(r.name))
    && SubsectionsFit(n)
  }

  // Nothing is named twice.
  predicate Once(n: NameData) {
    NamedOnce(n.funcs) && RowsOnce(n.locals) && NamedOnce(n.globals)
  }

  // Every subsection's size is a u32. The quantifier keeps the subsections out of a proof that does not ask.
  ghost predicate SubsectionsFit(n: NameData) {
    forall cs | cs == NameChunks(n) :: ChunksFit(cs)
  }

  lemma FourLookups(p0: bool, b0: Bytes, p1: bool, b1: Bytes, p2: bool, b2: Bytes, p7: bool, b7: Bytes)
    ensures var cs := Add(Add(Add(Add([], 0, p0, b0), 1, p1, b1), 2, p2, b2), 7, p7, b7);
      && Lookup(cs, 0) == (if p0 then Some(b0) else None)
      && Lookup(cs, 1) == (if p1 then Some(b1) else None)
      && Lookup(cs, 2) == (if p2 then Some(b2) else None)
      && Lookup(cs, 7) == (if p7 then Some(b7) else None)
  {
    var c0 := Add([], 0, p0, b0);
    var c1 := Add(c0, 1, p1, b1);
    var c2 := Add(c1, 2, p2, b2);
    LookupAdd([], 0, p0, b0);
    LookupAdd(c0, 1, p1, b1);
    LookupAdd(c1, 2, p2, b2);
    LookupAdd(c2, 7, p7, b7);
  }

  lemma NameLookups(n: NameData)
    ensures var cs := NameChunks(n);
      Lookup(cs, 0) == NameSection(n.moduleName) && Lookup(cs, 1) == MapSection(n.funcs)
      && Lookup(cs, 2) == LocalsSection(n.locals) && Lookup(cs, 7) == MapSection(n.globals)
  {
    FourLookups(n.moduleName != [], EncBytes(n.moduleName),
                n.funcs != [], EncVec(EncNamed, SortBy(IndexKey, n.funcs)),
                n.locals != [], EncVec(EncGroup, Groups(SortBy(RowKey, n.locals))),
                n.globals != [], EncVec(EncNamed, SortBy(IndexKey, n.globals)));
  }

  function NameSection(name: Bytes): Option<Bytes> {
    if name == [] then None else Some(EncBytes(name))
  }

  function LocalsSection(m: seq<LocalName>): Option<Bytes> {
    if m == [] then None else Some(EncVec(EncGroup, Groups(SortBy(RowKey, m))))
  }

  function MapSection(m: seq<Named>): Option<Bytes> {
    if m == [] then None else Some(EncVec(EncNamed, SortBy(IndexKey, m)))
  }

  lemma SortedMapRoundTrip(m: seq<Named>)
    requires MapOk(m)
    ensures DecWhole(DecNamed, MapSection(m)) == Some(SortBy(IndexKey, m))
  {
    var s := SortBy(IndexKey, m);
    SortFacts(IndexKey, m);
    forall n | n in s
      ensures Reads(EncNamed, DecNamed, n)
    {
      NamedReads(n);
    }
    WholeRoundTrip(EncNamed, DecNamed, s, MapSection(m));
  }

  lemma LocalsRoundTrip(m: seq<LocalName>)
    requires IsU32(|m|) && forall r | r in m :: NameOk(r.name)
    ensures var r := DecWhole(DecGroup, LocalsSection(m));
      r.Some? && Ungroup(r.value) == SortBy(RowKey, m) && (GroupsSorted(r.value) <==> RowsOnce(m))
  {
    var s := SortBy(RowKey, m);
    SortFacts(RowKey, m);
    GroupsFit(s);
    forall g | g in Groups(s)
      ensures Reads(EncGroup, DecGroup, g)
    {
      GroupReads(g);
    }
    WholeRoundTrip(EncGroup, DecGroup, Groups(s), LocalsSection(m));
    GroupsRoundTrip(s);
    RowsSorted(m);
    GroupsSortedIffOnce(s);
  }

  lemma ModuleNameRoundTrip(name: Bytes)
    requires NameOk(name)
    ensures DecModuleName(NameSection(name)) == Some(name)
  {
    NameRoundTrip(name, []);
    assert EncBytes(name) + [] == EncBytes(name);
  }

  lemma NamesAreBack(n: NameData, cs: seq<Chunk>)
    requires NamesOk(n)
    requires Lookup(cs, 0) == NameSection(n.moduleName) && Lookup(cs, 1) == MapSection(n.funcs)
    requires Lookup(cs, 2) == LocalsSection(n.locals) && Lookup(cs, 7) == MapSection(n.globals)
    ensures NamesIn(cs) == if Once(n) then Some(SortedNames(n)) else None
  {
    ModuleNameRoundTrip(n.moduleName);
    SortedMapRoundTrip(n.funcs);
    LocalsRoundTrip(n.locals);
    SortedMapRoundTrip(n.globals);
    SortedIffOnce(n.funcs);
    SortedIffOnce(n.globals);
  }

  // Sorting adds no name and loses none.
  lemma SortedKeeps(n: NameData)
    ensures SortedNames(n).moduleName == n.moduleName
    ensures multiset(SortedNames(n).funcs) == multiset(n.funcs)
    ensures multiset(SortedNames(n).locals) == multiset(n.locals)
    ensures multiset(SortedNames(n).globals) == multiset(n.globals)
  {
    SortFacts(IndexKey, n.funcs);
    SortFacts(RowKey, n.locals);
    SortFacts(IndexKey, n.globals);
  }

  // Reading the section back gives every name, in increasing order of indices, if nothing has two names, and
  // fails otherwise.
  lemma NamesRoundTrip(n: NameData)
    requires NamesOk(n)
    ensures DecNames(EncChunks(NameChunks(n))) == if Once(n) then Some(SortedNames(n)) else None
  {
    assert ChunksFit(NameChunks(n));
    ChunksRoundTrip(NameChunks(n));
    NameLookups(n);
    NamesAreBack(n, NameChunks(n));
  }
}
