/**
 Function bodies as bytes: run-length local declarations followed by the instructions and a final
 `end`, and the decoder of section 5.5.13 of the WebAssembly Core Specification 2.0 that recovers both.
 */
module Body {
  import opened Ints
  import opened Syntax
  import opened Leb128
  import opened Codec
  import opened Encoding

  /* Instruction sequences. */

  datatype Stop = AtEnd | AtElse

  // Section 5.4.1: reads instructions up to the `end` or `else` that closes the sequence.
  function DecCode(table: Table, acc: Code, bs: seq<byte>): (r: Option<(Code, Stop, seq<byte>)>)
    ensures r.Some? ==> |r.value.2| < |bs|
    decreases |bs|
  {
    match DecEvent(table, bs)
    case None => None
    case Some((Do(op), rest)) => DecCode(table, Snoc(acc, Plain(op)), rest)
    case Some((End, rest)) => Some((acc, AtEnd, rest))
    case Some((Else, rest)) => Some((acc, AtElse, rest))
    case Some((Start(kind, bt), rest)) =>
      match DecCode(table, Empty, rest)
      case None => None
      case Some((body, AtEnd, rest')) => DecCode(table, Snoc(acc, Scope(kind, bt, body)), rest')
      case Some((thn, AtElse, rest')) =>
        if kind != KIf then None else
        match DecCode(table, Empty, rest')
        case Some((els, AtEnd, rest'')) => DecCode(table, Snoc(acc, IfElse(bt, thn, els)), rest'')
        case _ => None
  }

  predicate CodeOk(table: Table, c: Code)
    decreases c
  {
    match c
    case Empty => true
    case Snoc(init, last) => CodeOk(table, init) && InstrOk(table, last)
  }

  predicate InstrOk(table: Table, i: Instr)
    decreases i
  {
    match i
    case Plain(op) => OpOk(table, op)
    case Scope(_, _, body) => CodeOk(table, body)
    case IfElse(_, thn, els) => CodeOk(table, thn) && CodeOk(table, els)
  }

  function EncCode(c: Code): seq<byte> {
    EncEvents(Flatten(c))
  }

  lemma EncCodeSnoc(init: Code, last: Instr)
    ensures EncCode(Snoc(init, last)) == EncCode(init) + EncEvents(FlattenInstr(last))
  {
    EncAllAppend(EncEvent, Flatten(init), FlattenInstr(last));
  }

  lemma EncScope(kind: FrameKind, bt: BlockType, body: Code)
    ensures EncEvents(FlattenInstr(Scope(kind, bt, body)))
            == EncEvent(Start(kind, bt)) + EncCode(body) + EncEvent(End)
  {
    EncAllAppend(EncEvent, [Start(kind, bt)] + Flatten(body), [End]);
    EncAllAppend(EncEvent, [Start(kind, bt)], Flatten(body));
    EncEventsOne(Start(kind, bt));
    EncEventsOne(End);
  }

  lemma EncIfElse(bt: BlockType, thn: Code, els: Code)
    ensures EncEvents(FlattenInstr(IfElse(bt, thn, els)))
            == EncEvent(Start(KIf, bt)) + EncCode(thn) + EncEvent(Else) + EncCode(els) + EncEvent(End)
  {
    var a := [Start(KIf, bt)] + Flatten(thn);
    EncAllAppend(EncEvent, a + [Else] + Flatten(els), [End]);
    EncAllAppend(EncEvent, a + [Else], Flatten(els));
    EncAllAppend(EncEvent, a, [Else]);
    EncAllAppend(EncEvent, [Start(KIf, bt)], Flatten(thn));
    EncEventsOne(Start(KIf, bt));
    EncEventsOne(Else);
    EncEventsOne(End);
  }

  // Reading the bytes of `c` and going on is the same as having read `c`.
  lemma {:induction false} CodeReads(table: Table, acc: Code, c: Code, tail: seq<byte>)
    requires TableOk(table) && CodeOk(table, c)
    ensures DecCode(table, acc, EncCode(c) + tail) == DecCode(table, Append(acc, c), tail)
    decreases c, 0
  {
    match c
    case Empty => assert EncCode(c) + tail == tail;
    case Snoc(init, last) =>
      var here := EncEvents(FlattenInstr(last));
      EncCodeSnoc(init, last);
      Assoc(EncCode(init), here, tail);
      CodeReads(table, acc, init, here + tail);
      InstrReads(table, Append(acc, init), last, tail);
  }

  lemma {:induction false} InstrReads(table: Table, acc: Code, i: Instr, tail: seq<byte>)
    requires TableOk(table) && InstrOk(table, i)
    ensures DecCode(table, acc, EncEvents(FlattenInstr(i)) + tail) == DecCode(table, Snoc(acc, i), tail)
    decreases i, 0
  {
    match i
    case Plain(op) =>
      EncEventsOne(Do(op));
      EventRoundTrip(table, Do(op), tail);
    case Scope(kind, bt, body) =>
      EncScope(kind, bt, body);
      var start, end := EncEvent(Start(kind, bt)), EncEvent(End);
      Assoc(start, EncCode(body), end);
      Assoc(start, EncCode(body) + end, tail);
      Assoc(EncCode(body), end, tail);
      EventRoundTrip(table, Start(kind, bt), EncCode(body) + (end + tail));
      ArmReads(table, body, End, tail);
    case IfElse(bt, thn, els) =>
      EncIfElse(bt, thn, els);
      var start, mid, end := EncEvent(Start(KIf, bt)), EncEvent(Else), EncEvent(End);
      IfElseBytes(start, EncCode(thn), mid, EncCode(els), end, tail);
      EventRoundTrip(table, Start(KIf, bt), EncCode(thn) + (mid + (EncCode(els) + (end + tail))));
      ArmReads(table, thn, Else, EncCode(els) + (end + tail));
      ArmReads(table, els, End, tail);
  }

  lemma IfElseBytes(a: seq<byte>, b: seq<byte>, c: seq<byte>, d: seq<byte>, e: seq<byte>, tail: seq<byte>)
    ensures a + b + c + d + e + tail == a + (b + (c + (d + (e + tail))))
  {
    Assoc(a + b + c + d, e, tail);
    Assoc(a + b + c, d, e + tail);
    Assoc(a + b, c, d + (e + tail));
    Assoc(a, b, c + (d + (e + tail)));
  }

  // A whole arm is read up to the delimiter that follows it.
  lemma {:induction false} ArmReads(table: Table, c: Code, close: Event, tail: seq<byte>)
    requires TableOk(table) && CodeOk(table, c) && (close.End? || close.Else?)
    ensures DecCode(table, Empty, EncCode(c) + (EncEvent(close) + tail))
            == Some((c, if close.End? then AtEnd else AtElse, tail))
    decreases c, 1
  {
    CodeReads(table, Empty, c, EncEvent(close) + tail);
    AppendEmpty(c);
    EventRoundTrip(table, close, tail);
  }

  lemma {:induction false} AppendEmpty(c: Code)
    ensures Append(Empty, c) == c
  {
    if c.Snoc? {
      AppendEmpty(c.init);
    }
  }

  /* Local declarations. */

  datatype LocalRun = LocalRun(t: ValType, count: u32)

  function EncRun(run: LocalRun): seq<byte> {
    ULEB(run.count) + [TypeByte(run.t)]
  }

  function EncLocals(runs: seq<LocalRun>): seq<byte> {
    EncVec(EncRun, runs)
  }

  function DecRun(bs: seq<byte>): (r: Option<(LocalRun, seq<byte>)>)
    ensures r.Some? ==> |r.value.1| < |bs|
  {
    match DecIdx(bs)
    case None => None
    case Some((count, r1)) =>
      if r1 == [] || TypeOfByte(r1[0]).None? then None
      else Some((LocalRun(TypeOfByte(r1[0]).value, count), r1[1..]))
  }

  lemma RunReads(run: LocalRun)
    ensures Reads(EncRun, DecRun, run)
  {
    forall rest: seq<byte>
      ensures DecRun(EncRun(run) + rest) == Some((run, rest))
    {
      Assoc(ULEB(run.count), [TypeByte(run.t)], rest);
      IdxRoundTrip(run.count, [TypeByte(run.t)] + rest);
      assert ([TypeByte(run.t)] + rest)[1..] == rest;
    }
  }

  // How many locals the runs declare.
  function TotalLocals(runs: seq<LocalRun>): nat {
    if runs == [] then 0 else TotalLocals(runs[..|runs| - 1]) + runs[|runs| - 1].count
  }

  /* Whole bodies. */

  datatype FuncBody = FuncBody(runs: seq<LocalRun>, code: Code)

  predicate BodyOk(table: Table, b: FuncBody) {
    IsU32(|b.runs|) && IsU32(TotalLocals(b.runs)) && CodeOk(table, b.code)
  }

  function EncBody(b: FuncBody): seq<byte> {
    EncLocals(b.runs) + (EncCode(b.code) + [0x0B])
  }

  function DecBody(table: Table, bs: seq<byte>): Option<(FuncBody, seq<byte>)> {
    match DecVec(DecRun, bs)
    case None => None
    case Some((runs, r1)) =>
      if !IsU32(TotalLocals(runs)) then None
      else
        match DecCode(table, Empty, r1)
        case Some((code, AtEnd, r2)) => Some((FuncBody(runs, code), r2))
        case _ => None
  }

  // Decoding a body gives back its declarations and its tree and stops at its last byte, exactly if it
  // declares fewer than 2^32 locals.
  lemma BodyRoundTrip(table: Table, b: FuncBody, rest: seq<byte>)
    requires TableOk(table) && IsU32(|b.runs|) && CodeOk(table, b.code)
    ensures DecBody(table, EncBody(b) + rest) == if BodyOk(table, b) then Some((b, rest)) else None
  {
    var code := EncCode(b.code) + [0x0B];
    Assoc(EncLocals(b.runs), code, rest);
    forall run | run in b.runs
      ensures Reads(EncRun, DecRun, run)
    {
      RunReads(run);
    }
    VecRoundTrip(EncRun, DecRun, b.runs, code + rest);
    Assoc(EncCode(b.code), [0x0B], rest);
    ArmReads(table, b.code, End, rest);
  }

  // A call sequence spells at most one body.
  lemma FlattenInjective(table: Table, a: Code, b: Code)
    requires TableOk(table) && CodeOk(table, a) && CodeOk(table, b) && Flatten(a) == Flatten(b)
    ensures a == b
  {
    ArmReads(table, a, End, []);
    ArmReads(table, b, End, []);
  }
}
