/**
 The rest of the module grammar of section 5.5.16: every body is a body, and a module whose code names data
 segments says how many there are before the code. The library says so only if some segment is passive.
 */
module DataCount {
  import opened Ints
  import opened Syntax
  import opened Codec
  import opened Encoding
  import opened Body
  import opened Names
  import opened Contexts
  import opened ModuleFormat
  import opened ModuleValidity

  /* Code that names data segments: memory.init and data.drop. */

  predicate NamesData(ev: Event) {
    ev.Do? && ev.op.Fixed? && (ev.op.imm.MemInit? || (ev.op.imm.Idx? && ev.op.row.opcode == DATA_DROP))
  }

  predicate SomeNamesData(evs: seq<Event>) {
    exists k :: 0 <= k < |evs| && NamesData(evs[k])
  }

  predicate BodyNamesData(table: Table, body: Bytes) {
    DecBody(table, body).Some? && SomeNamesData(Flatten(DecBody(table, body).value.0.code))
  }

  predicate CodeNamesData(table: Table, m: ModuleData) {
    exists k :: 0 <= k < |m.funcs| && BodyNamesData(table, m.funcs[k].body)
  }

  /* The grammar. */

  predicate IsBody(table: Table, body: Bytes) {
    DecBody(table, body).Some? && DecBody(table, body).value.1 == []
  }

  predicate BodiesDecode(table: Table, m: ModuleData) {
    forall k | 0 <= k < |m.funcs| :: IsBody(table, m.funcs[k].body)
  }

  // There is a data count section.
  predicate Counted(bs: Bytes) {
    |bs| >= 8 && DecChunks(bs[8..]).Some? && Lookup(DecChunks(bs[8..]).value, 12).Some?
  }

  function DecWholeModule(table: Table, bs: Bytes): Option<ModuleData> {
    match DecModule(bs)
    case None => None
    case Some(d) => if BodiesDecode(table, d) && (Counted(bs) || !CodeNamesData(table, d)) then Some(d) else None
  }

  lemma CountedIffPassive(m: ModuleData)
    requires ModuleOk(m)
    ensures Counted(EncModule(m)) <==> exists k :: 0 <= k < |m.datas| && m.datas[k].PassiveData?
  {
    var cs := Sections(m);
    assert ChunksFit(cs);
    assert EncModule(m)[8..] == EncChunks(cs);
    ChunksRoundTrip(cs);
    CountSection(m);
  }

  // An assembled module is one of the grammar if and only if its bodies are, and some data segment is
  // passive or no body names a data segment.
  lemma WholeModuleIff(table: Table, m: ModuleData)
    requires ModuleOk(m)
    ensures DecWholeModule(table, EncModule(m)) ==
            if BodiesDecode(table, m) && (HasPassive(m.datas) || !CodeNamesData(table, m))
            then Some(m.(names := SortedNames(m.names))) else None
  {
    ModuleRoundTrip(m);
    CountedIffPassive(m);
    var d := m.(names := SortedNames(m.names));
    assert d.funcs == m.funcs;
    assert BodiesDecode(table, d) <==> BodiesDecode(table, m);
    assert CodeNamesData(table, d) <==> CodeNamesData(table, m);
  }

  // For bodies an emitter wrote, that is a question about its calls.
  lemma NamesDataIffCalled(table: Table, m: ModuleData, k: nat, runs: seq<LocalRun>, evs: seq<Event>)
    requires TableOk(table) && EmittedAs(table, m, k, runs, evs) && IsBody(table, m.funcs[k].body)
    ensures BodyNamesData(table, m.funcs[k].body) <==> SomeNamesData(evs)
  {
    BodyReads(table, runs, evs, DecBody(table, m.funcs[k].body).value.0);
  }
}
