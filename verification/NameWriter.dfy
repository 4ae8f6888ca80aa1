/**
 Writing the name section: each map is sorted into a copy, local names are grouped by function in two
 passes over the sorted rows, and every subsection is built apart and then appended with its size.
 */
module NameWriter {
  import opened Ints
  import opened Leb128
  import opened Buffers
  import opened Codec
  import opened Names
  import opened Writers

  // Sizes fit 64 bits.
  predicate NamesFit(n: NameData) {
    && IsU64(|n.moduleName|) && MapFits(n.funcs) && MapFits(n.globals) && RowsFit(n.locals)
    && forall c | c in NameChunks(n) :: IsU64(|c.body|)
  }

  predicate MapFits(m: seq<Named>) {
    IsU64(|m|) && forall n | n in m :: NamedFits(n)
  }

  predicate RowsFit(rows: seq<LocalName>) {
    IsU64(|rows|) && forall r | r in rows :: IsU64(|r.name|)
  }

  method PutNamed(b: CodeBuffer, n: Named)
    requires b.Valid() && NamedFits(n)
    modifies b, b.data
    ensures b.Appended(EncNamed(n))
  {
    Assoc(b.Contents(), ULEB(n.index), EncBytes(n.name));
    b.PutULEB(n.index);
    PutName(b, n.name);
  }

  method PutNamedVec(b: CodeBuffer, m: seq<Named>)
    requires b.Valid() && MapFits(m)
    modifies b, b.data
    ensures b.Appended(EncVec(EncNamed, m))
  {
    b.PutULEB(|m|);
    for i := 0 to |m|
      invariant b.Appended(ULEB(|m|) + EncAll(EncNamed, m[..i]))
    {
      OneMore(old(b.Contents()), ULEB(|m|), EncNamed, m, i);
      PutNamed(b, m[i]);
    }
    assert m[..|m|] == m;
  }

  method PutNameMap(b: CodeBuffer, m: seq<Named>)
    requires b.Valid() && MapFits(m)
    modifies b, b.data
    ensures b.Appended(EncVec(EncNamed, SortBy(IndexKey, m)))
    ensures MapSorted(SortBy(IndexKey, m)) <==> NamedOnce(m)
    ensures forall i, j | 0 <= i < j < |m| :: SortBy(IndexKey, m)[i].index <= SortBy(IndexKey, m)[j].index
  {
    SortFacts(IndexKey, m);
    SortedIffOnce(m);
    PutNamedVec(b, SortBy(IndexKey, m));
  }

  /* Local names. */

  // The rows from i to j are of one function, and the next row, if any, is of another.
  predicate IsRun(rows: seq<LocalName>, i: nat, j: nat) {
    && i < j <= |rows| && (forall k | i <= k < j :: rows[k].func == rows[i].func)
    && (j < |rows| ==> rows[j].func != rows[i].func)
  }

  method EndOfRun(rows: seq<LocalName>, i: nat) returns (j: nat)
    requires i < |rows|
    ensures IsRun(rows, i, j)
  {
    j := i;
    while j < |rows| && rows[j].func == rows[i].func
      invariant i <= j <= |rows| && forall k | i <= k < j :: rows[k].func == rows[i].func
    {
      j := j + 1;
    }
  }

  lemma RunLengthIs(rows: seq<LocalName>, i: nat, j: nat)
    requires IsRun(rows, i, j)
    ensures RunLength(rows[i..]) == j - i
  {}

  lemma {:induction false} GroupCount(rows: seq<LocalName>)
    ensures |Groups(rows)| <= |rows|
    decreases |rows|
  {
    if rows != [] {
      GroupCount(rows[RunLength(rows)..]);
    }
  }

  lemma NextGroup(rows: seq<LocalName>, i: nat, j: nat)
    requires IsRun(rows, i, j)
    ensures Groups(rows[i..]) == [LocalGroup(rows[i].func, Entries(rows[i..j]))] + Groups(rows[j..])
  {
    RunLengthIs(rows, i, j);
    assert rows[i..] == rows[i..j] + rows[j..];
    GroupsStep(rows[i..], rows[i..j], rows[j..]);
  }

  method CountGroups(rows: seq<LocalName>) returns (n: nat)
    ensures n == |Groups(rows)|
  {
    n := 0;
    var i := 0;
    while i < |rows|
      invariant i <= |rows| && n + |Groups(rows[i..])| == |Groups(rows)|
      decreases |rows| - i
    {
      var j := EndOfRun(rows, i);
      NextGroup(rows, i, j);
      n := n + 1;
      i := j;
    }
  }

  // The rows from i to j, as the entries of one function.
  method PutGroup(b: CodeBuffer, rows: seq<LocalName>, i: nat, j: nat, ghost entries: seq<Named>)
    requires b.Valid() && RowsFit(rows) && i < j <= |rows| && |entries| == j - i
    requires forall k | i <= k < j :: entries[k - i] == Named(rows[k].index, rows[k].name)
    modifies b, b.data
    ensures b.Appended(EncGroup(LocalGroup(rows[i].func, entries)))
  {
    ghost var count := ULEB(rows[i].func) + ULEB(j - i);
    Assoc(b.Contents(), ULEB(rows[i].func), ULEB(j - i));
    b.PutULEB(rows[i].func);
    b.PutULEB(j - i);
    for k := i to j
      invariant b.Appended(count + EncAll(EncNamed, entries[..k - i]))
    {
      OneMore(old(b.Contents()), count, EncNamed, entries, k - i);
      PutNamed(b, Named(rows[k].index, rows[k].name));
    }
    assert entries[..j - i] == entries;
    assert EncGroup(LocalGroup(rows[i].func, entries)) == count + EncAll(EncNamed, entries) by {
      Assoc(ULEB(rows[i].func), ULEB(j - i), EncAll(EncNamed, entries));
    }
  }

  // The groups of the rows from i on.
  ghost predicate GroupsFrom(rows: seq<LocalName>, i: nat, groups: seq<LocalGroup>)
    requires i <= |rows|
  {
    forall k: nat | k <= |rows| && k == i :: Groups(rows[k..]) == groups
  }

  lemma FirstGroupIs(rows: seq<LocalName>, i: nat, j: nat, groups: seq<LocalGroup>)
    requires IsRun(rows, i, j) && GroupsFrom(rows, i, groups)
    ensures groups != [] && groups[0].func == rows[i].func && |groups[0].names| == j - i
    ensures forall k | i <= k < j :: groups[0].names[k - i] == Named(rows[k].index, rows[k].name)
    ensures GroupsFrom(rows, j, groups[1..])
  {
    NextGroup(rows, i, j);
  }

  lemma GroupAt(rows: seq<LocalName>, i: nat, j: nat, groups: seq<LocalGroup>, g: nat)
    requires g <= |groups| && IsRun(rows, i, j) && GroupsFrom(rows, i, groups[g..])
    ensures g < |groups| && groups[g] == LocalGroup(rows[i].func, groups[g].names) && |groups[g].names| == j - i
    ensures forall k | i <= k < j :: groups[g].names[k - i] == Named(rows[k].index, rows[k].name)
    ensures GroupsFrom(rows, j, groups[g + 1..])
  {
    FirstGroupIs(rows, i, j, groups[g..]);
    assert groups[g..][1..] == groups[g + 1..];
  }

  lemma AppendGroup(before: Bytes, groups: seq<LocalGroup>, g: nat)
    requires g < |groups|
    ensures before + EncAll(EncGroup, groups[..g]) + EncGroup(groups[g]) == before + EncAll(EncGroup, groups[..g + 1])
  {
    assert groups[..g + 1] == groups[..g] + [groups[g]];
    EncAllSnoc(EncGroup, groups[..g], groups[g]);
  }

  // Writes the group that starts at row i; j is where the next one does.
  method PutGroupAt(b: CodeBuffer, rows: seq<LocalName>, i: nat, ghost groups: seq<LocalGroup>, ghost g: nat)
    returns (j: nat)
    requires b.Valid() && RowsFit(rows) && i < |rows|
    requires g <= |groups| && GroupsFrom(rows, i, groups[g..])
    modifies b, b.data
    ensures i < j <= |rows| && g < |groups| && GroupsFrom(rows, j, groups[g + 1..])
    ensures b.Appended(EncGroup(groups[g]))
  {
    j := EndOfRun(rows, i);
    GroupAt(rows, i, j, groups, g);
    PutGroup(b, rows, i, j, groups[g].names);
  }

  method PutGroups(b: CodeBuffer, rows: seq<LocalName>, ghost groups: seq<LocalGroup>)
    requires b.Valid() && RowsFit(rows) && GroupsFrom(rows, 0, groups)
    modifies b, b.data
    ensures b.Appended(EncAll(EncGroup, groups))
  {
    ghost var g := 0;
    var i := 0;
    while i < |rows|
      invariant i <= |rows| && g <= |groups| && GroupsFrom(rows, i, groups[g..])
      invariant b.Appended(EncAll(EncGroup, groups[..g]))
      decreases |rows| - i
    {
      i := PutGroupAt(b, rows, i, groups, g);
      AppendGroup(old(b.Contents()), groups, g);
      g := g + 1;
    }
    NoneLeft(rows, groups[g..]);
    assert groups[..g] == groups;
  }

  lemma NoneLeft(rows: seq<LocalName>, groups: seq<LocalGroup>)
    requires GroupsFrom(rows, |rows|, groups)
    ensures groups == []
  {
    assert Groups(rows[|rows|..]) == [];
  }

  method PutLocalNames(b: CodeBuffer, locals: seq<LocalName>)
    requires b.Valid() && RowsFit(locals)
    modifies b, b.data
    ensures b.Appended(EncVec(EncGroup, Groups(SortBy(RowKey, locals))))
    ensures GroupsSorted(Groups(SortBy(RowKey, locals))) <==> RowsOnce(locals)
  {
    SortFacts(RowKey, locals);
    RowsSorted(locals);
    GroupsSortedIffOnce(SortBy(RowKey, locals));
    var rows := SortBy(RowKey, locals);
    GroupCount(rows);
    var n := CountGroups(rows);
    Assoc(b.Contents(), ULEB(n), EncAll(EncGroup, Groups(rows)));
    b.PutULEB(n);
    assert rows[0..] == rows;
    PutGroups(b, rows, Groups(rows));
  }

  /* Subsections. */

  method PutSubsection(names: CodeBuffer, id: byte, sub: CodeBuffer)
    requires names.Valid() && sub.Valid() && IsU64(sub.size)
    requires sub != names && sub.data != names.data
    modifies names, names.data
    ensures names.Appended(EncChunk(Chunk(id, old(sub.Contents()))))
  {
    ghost var start, body := names.Contents(), sub.Contents();
    Assoc(start, [id], ULEB(|body|));
    Assoc(start, [id] + ULEB(|body|), body);
    Assoc([id], ULEB(|body|), body);
    names.PutU8(id);
    names.PutULEB(sub.size);
    names.PutBytes(sub.Contents());
  }

  // The bytes of a chunk that is there only if there is anything to put in it.
  function Piece(id: byte, present: bool, body: Bytes): Bytes {
    if present then EncChunk(Chunk(id, body)) else []
  }

  function NamePiece(name: Bytes): Bytes {
    Piece(0, name != [], EncBytes(name))
  }

  function MapPiece(id: byte, m: seq<Named>): Bytes {
    Piece(id, m != [], EncVec(EncNamed, SortBy(IndexKey, m)))
  }

  function LocalsPiece(m: seq<LocalName>): Bytes {
    Piece(2, m != [], EncVec(EncGroup, Groups(SortBy(RowKey, m))))
  }

  // The bytes of the subsections, one after the other.
  function NamePieces(n: NameData): Bytes {
    NamePiece(n.moduleName) + MapPiece(1, n.funcs) + LocalsPiece(n.locals) + MapPiece(7, n.globals)
  }

  lemma EncAdd(cs: seq<Chunk>, id: byte, present: bool, body: Bytes)
    ensures EncChunks(Add(cs, id, present, body)) == EncChunks(cs) + Piece(id, present, body)
  {
    if present {
      assert (cs + [Chunk(id, body)])[..|cs|] == cs;
    }
  }

  method PutModuleName(names: CodeBuffer, name: Bytes)
    requires names.Valid() && IsU64(|name|) && (name != [] ==> IsU64(|EncBytes(name)|))
    modifies names, names.data
    ensures names.Appended(NamePiece(name))
  {
    if name != [] {
      var sub := new CodeBuffer();
      PutName(sub, name);
      assert sub.Contents() == EncBytes(name);
      PutSubsection(names, 0, sub);
    }
  }

  method PutNamesOf(names: CodeBuffer, id: byte, m: seq<Named>)
    requires names.Valid() && MapFits(m) && (m != [] ==> IsU64(|EncVec(EncNamed, SortBy(IndexKey, m))|))
    modifies names, names.data
    ensures names.Appended(MapPiece(id, m))
  {
    if m != [] {
      var sub := new CodeBuffer();
      PutNameMap(sub, m);
      assert sub.Contents() == EncVec(EncNamed, SortBy(IndexKey, m));
      PutSubsection(names, id, sub);
    }
  }

  method PutLocalNamesOf(names: CodeBuffer, m: seq<LocalName>)
    requires names.Valid() && RowsFit(m) && (m != [] ==> IsU64(|EncVec(EncGroup, Groups(SortBy(RowKey, m)))|))
    modifies names, names.data
    ensures names.Appended(LocalsPiece(m))
  {
    if m != [] {
      var sub := new CodeBuffer();
      PutLocalNames(sub, m);
      assert sub.Contents() == EncVec(EncGroup, Groups(SortBy(RowKey, m)));
      PutSubsection(names, 2, sub);
    }
  }

  lemma FourFit(p0: bool, b0: Bytes, p1: bool, b1: Bytes, p2: bool, b2: Bytes, p7: bool, b7: Bytes)
    requires var cs := Add(Add(Add(Add([], 0, p0, b0), 1, p1, b1), 2, p2, b2), 7, p7, b7);
      forall c | c in cs :: IsU64(|c.body|)
    ensures (p0 ==> IsU64(|b0|)) && (p1 ==> IsU64(|b1|)) && (p2 ==> IsU64(|b2|)) && (p7 ==> IsU64(|b7|))
  {
    var c1 := Add(Add([], 0, p0, b0), 1, p1, b1);
    assert p0 ==> Chunk(0, b0) in c1;
    assert p1 ==> Chunk(1, b1) in c1;
    assert p2 ==> Chunk(2, b2) in Add(c1, 2, p2, b2);
    assert p7 ==> Chunk(7, b7) in Add(Add(c1, 2, p2, b2), 7, p7, b7);
  }

  lemma ChunkFits(n: NameData)
    requires NamesFit(n)
    ensures n.moduleName != [] ==> IsU64(|EncBytes(n.moduleName)|)
    ensures n.funcs != [] ==> IsU64(|EncVec(EncNamed, SortBy(IndexKey, n.funcs))|)
    ensures n.locals != [] ==> IsU64(|EncVec(EncGroup, Groups(SortBy(RowKey, n.locals)))|)
    ensures n.globals != [] ==> IsU64(|EncVec(EncNamed, SortBy(IndexKey, n.globals))|)
  {
    FourFit(n.moduleName != [], EncBytes(n.moduleName),
            n.funcs != [], EncVec(EncNamed, SortBy(IndexKey, n.funcs)),
            n.locals != [], EncVec(EncGroup, Groups(SortBy(RowKey, n.locals))),
            n.globals != [], EncVec(EncNamed, SortBy(IndexKey, n.globals)));
  }

  lemma FourPieces(p0: bool, b0: Bytes, p1: bool, b1: Bytes, p2: bool, b2: Bytes, p7: bool, b7: Bytes)
    ensures EncChunks(Add(Add(Add(Add([], 0, p0, b0), 1, p1, b1), 2, p2, b2), 7, p7, b7))
            == Piece(0, p0, b0) + Piece(1, p1, b1) + Piece(2, p2, b2) + Piece(7, p7, b7)
  {
    var c0 := Add([], 0, p0, b0);
    var c1 := Add(c0, 1, p1, b1);
    var c2 := Add(c1, 2, p2, b2);
    EncAdd([], 0, p0, b0);
    EncAdd(c0, 1, p1, b1);
    EncAdd(c1, 2, p2, b2);
    EncAdd(c2, 7, p7, b7);
  }

  lemma PiecesAreChunks(n: NameData)
    ensures EncChunks(NameChunks(n)) == NamePieces(n)
  {
    FourPieces(n.moduleName != [], EncBytes(n.moduleName),
               n.funcs != [], EncVec(EncNamed, SortBy(IndexKey, n.funcs)),
               n.locals != [], EncVec(EncGroup, Groups(SortBy(RowKey, n.locals))),
               n.globals != [], EncVec(EncNamed, SortBy(IndexKey, n.globals)));
  }

  method PutSubsections(names: CodeBuffer, n: NameData)
    requires NamesFit(n) && names.Valid() && names.Contents() == []
    modifies names, names.data
    ensures names.Valid() && names.Contents() == NamePieces(n)
    ensures names.data == old(names.data) || fresh(names.data)
  {
    ChunkFits(n);
    PutModuleName(names, n.moduleName);
    assert names.Contents() == NamePiece(n.moduleName);
    PutNamesOf(names, 1, n.funcs);
    assert names.Contents() == NamePiece(n.moduleName) + MapPiece(1, n.funcs);
    PutLocalNamesOf(names, n.locals);
    PutNamesOf(names, 7, n.globals);
  }

  // All the subsections, in order.
  method WriteNames(n: NameData) returns (names: CodeBuffer)
    requires NamesFit(n)
    ensures fresh(names) && fresh(names.data) && names.Valid() && names.Contents() == EncChunks(NameChunks(n))
    ensures NamesOk(n) ==> DecNames(names.Contents()) == if Once(n) then Some(SortedNames(n)) else None
  {
    names := new CodeBuffer();
    PutSubsections(names, n);
    PiecesAreChunks(n);
    if NamesOk(n) {
      NamesRoundTrip(n);
    }
  }
}
