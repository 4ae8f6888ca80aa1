/**
 Reading emitted code back: whatever calls an emitter logged, checked or not, their bytes decode as a
 body only if the calls spell one, and then as that body.
 */
module Reading {
  import opened Ints
  import opened Syntax
  import opened Codec
  import opened Encoding
  import opened Body

  // Calls whose operations the instruction table can describe.
  predicate EventsOk(table: Table, evs: seq<Event>) {
    forall k | 0 <= k < |evs| :: EventOk(table, evs[k])
  }

  lemma SplitOk(table: Table, a: seq<Event>, b: seq<Event>)
    requires EventsOk(table, a + b)
    ensures EventsOk(table, a) && EventsOk(table, b)
  {
    forall k | 0 <= k < |a|
      ensures EventOk(table, a[k])
    {
      assert (a + b)[k] == a[k];
    }
    forall k | 0 <= k < |b|
      ensures EventOk(table, b[k])
    {
      assert (a + b)[|a| + k] == b[k];
    }
  }

  // Such calls make a body the decoder can read.
  lemma {:induction false} CallsMakeCode(table: Table, c: Code)
    requires EventsOk(table, Flatten(c))
    ensures CodeOk(table, c)
    decreases c
  {
    match c
    case Empty =>
    case Snoc(init, last) =>
      SplitOk(table, Flatten(init), FlattenInstr(last));
      CallsMakeCode(table, init);
      CallsMakeInstr(table, last);
  }

  lemma {:induction false} CallsMakeInstr(table: Table, i: Instr)
    requires EventsOk(table, FlattenInstr(i))
    ensures InstrOk(table, i)
    decreases i
  {
    match i
    case Plain(op) =>
      assert FlattenInstr(i)[0] == Do(op);
    case Scope(kind, bt, body) =>
      SplitOk(table, [Start(kind, bt)] + Flatten(body), [End]);
      SplitOk(table, [Start(kind, bt)], Flatten(body));
      CallsMakeCode(table, body);
    case IfElse(bt, thn, els) =>
      SplitOk(table, [Start(KIf, bt)] + Flatten(thn) + [Else] + Flatten(els), [End]);
      SplitOk(table, [Start(KIf, bt)] + Flatten(thn) + [Else], Flatten(els));
      SplitOk(table, [Start(KIf, bt)] + Flatten(thn), [Else]);
      SplitOk(table, [Start(KIf, bt)], Flatten(thn));
      CallsMakeCode(table, thn);
      CallsMakeCode(table, els);
  }

  /* The decoder on emitted bytes. */

  function Closing(stop: Stop): Event {
    if stop.AtEnd? then End else Else
  }

  // The decoder read the first n calls into c, behind what it had, and then the closing one.
  predicate Spells(acc: Code, evs: seq<Event>, n: nat, c: Code, stop: Stop, rest: seq<byte>) {
    && n < |evs| && evs[n] == Closing(stop) && rest == EncEvents(evs[n + 1..])
    && Flatten(c) == Flatten(acc) + evs[..n]
  }

  // One call is read as itself.
  lemma NextCall(table: Table, evs: seq<Event>)
    requires TableOk(table) && EventsOk(table, evs)
    ensures evs == [] ==> DecEvent(table, EncEvents(evs)) == None
    ensures evs != [] ==> DecEvent(table, EncEvents(evs)) == Some((evs[0], EncEvents(evs[1..]))) && EventsOk(table, evs[1..])
  {
    if evs != [] {
      EncAllFront(EncEvent, evs);
      EventRoundTrip(table, evs[0], EncEvents(evs[1..]));
    }
  }

  // After the first j calls made an instruction, the rest is read on.
  lemma SpellsOn(acc: Code, i: Instr, evs: seq<Event>, j: nat, n: nat, c: Code, stop: Stop, rest: seq<byte>)
    returns (k: nat)
    requires j <= |evs| && FlattenInstr(i) == evs[..j] && Spells(Snoc(acc, i), evs[j..], n, c, stop, rest)
    ensures Spells(acc, evs, k, c, stop, rest)
  {
    k := j + n;
    assert evs[j..][n + 1..] == evs[k + 1..];
    assert evs[..j] + evs[j..][..n] == evs[..k];
    Assoc(Flatten(acc), evs[..j], evs[j..][..n]);
  }

  lemma {:induction false} DecodedSpells(table: Table, acc: Code, evs: seq<Event>) returns (n: nat)
    requires TableOk(table) && EventsOk(table, evs) && DecCode(table, acc, EncEvents(evs)).Some?
    ensures var (c, stop, rest) := DecCode(table, acc, EncEvents(evs)).value; Spells(acc, evs, n, c, stop, rest)
    decreases |evs|, 3
  {
    NextCall(table, evs);
    var (c, stop, rest) := DecCode(table, acc, EncEvents(evs)).value;
    match evs[0]
    case Do(op) =>
      n := DecodedSpells(table, Snoc(acc, Plain(op)), evs[1..]);
      n := SpellsOn(acc, Plain(op), evs, 1, n, c, stop, rest);
    case Start(kind, bt) => n := BlockSpells(table, acc, evs, kind, bt);
    case _ =>
      assert Flatten(acc) + evs[..0] == Flatten(acc);
      n := 0;
  }

  lemma Sliced(evs: seq<Event>, n: nat, b: nat)
    requires n + b < |evs|
    ensures evs[..n + b + 1] == evs[..n] + evs[n..][..b] + [evs[n + b]]
  {}

  lemma ScopeCalls(kind: FrameKind, bt: BlockType, body: Code, evs: seq<Event>, b: nat)
    requires b + 1 < |evs| && evs[0] == Start(kind, bt) && evs[b + 1] == End && Flatten(body) == evs[1..][..b]
    ensures FlattenInstr(Scope(kind, bt, body)) == evs[..b + 2]
  {
    Sliced(evs, 1, b);
    assert evs[..1] == [evs[0]];
  }

  lemma IfElseCalls(bt: BlockType, thn: Code, els: Code, evs: seq<Event>, a: nat, b: nat)
    requires a + b + 2 < |evs| && evs[0] == Start(KIf, bt) && evs[a + 1] == Else && evs[a + b + 2] == End
    requires Flatten(thn) == evs[1..][..a] && Flatten(els) == evs[a + 2..][..b]
    ensures FlattenInstr(IfElse(bt, thn, els)) == evs[..a + b + 3]
  {
    Sliced(evs, 1, a);
    Sliced(evs, a + 2, b);
    assert evs[..1] == [evs[0]];
  }

  // What the decoder does behind an opening instruction, from what it read of the first arm.
  predicate ReadsOn(table: Table, acc: Code, kind: FrameKind, bt: BlockType, body: Code, stop: Stop, rest: seq<byte>,
    all: Option<(Code, Stop, seq<byte>)>)
  {
    match stop
    case AtEnd => all == DecCode(table, Snoc(acc, Scope(kind, bt, body)), rest)
    case AtElse =>
      kind == KIf &&
      match DecCode(table, Empty, rest)
      case Some((els, AtEnd, rest')) => all == DecCode(table, Snoc(acc, IfElse(bt, body, els)), rest')
      case _ => false
  }

  lemma BlockReads(table: Table, acc: Code, evs: seq<Event>, kind: FrameKind, bt: BlockType)
    requires TableOk(table) && EventsOk(table, evs) && DecCode(table, acc, EncEvents(evs)).Some?
    requires evs != [] && evs[0] == Start(kind, bt)
    ensures EventsOk(table, evs[1..]) && DecCode(table, Empty, EncEvents(evs[1..])).Some?
    ensures var (body, stop, rest) := DecCode(table, Empty, EncEvents(evs[1..])).value;
      ReadsOn(table, acc, kind, bt, body, stop, rest, DecCode(table, acc, EncEvents(evs)))
  {
    NextCall(table, evs);
  }

  lemma {:induction false} BlockSpells(table: Table, acc: Code, evs: seq<Event>, kind: FrameKind, bt: BlockType)
    returns (n: nat)
    requires TableOk(table) && EventsOk(table, evs) && DecCode(table, acc, EncEvents(evs)).Some?
    requires evs != [] && evs[0] == Start(kind, bt)
    ensures var (c, stop, rest) := DecCode(table, acc, EncEvents(evs)).value; Spells(acc, evs, n, c, stop, rest)
    decreases |evs|, 2
  {
    BlockReads(table, acc, evs, kind, bt);
    var (body, stop, rest) := DecCode(table, Empty, EncEvents(evs[1..])).value;
    var all := DecCode(table, acc, EncEvents(evs)).value;
    var a := DecodedSpells(table, Empty, evs[1..]);
    assert rest == EncEvents(evs[a + 2..]) by {
      assert evs[1..][a + 1..] == evs[a + 2..];
    }
    if stop.AtEnd? {
      ScopeCalls(kind, bt, body, evs, a);
      n := InstrSpells(table, acc, Scope(kind, bt, body), evs, a + 2, all);
    } else {
      n := IfElseSpells(table, acc, evs, bt, body, a, all);
    }
  }

  // Where the instruction ends whose else arm has been read.
  lemma ElseArm(evs: seq<Event>, a: nat, b: nat, bt: BlockType, thn: Code, els: Code, rest: seq<byte>) returns (j: nat)
    requires a + 1 < |evs| && evs[0] == Start(KIf, bt) && evs[a + 1] == Else && Flatten(thn) == evs[1..][..a]
    requires Spells(Empty, evs[a + 2..], b, els, AtEnd, rest)
    ensures 0 < j <= |evs| && FlattenInstr(IfElse(bt, thn, els)) == evs[..j] && rest == EncEvents(evs[j..])
  {
    j := a + b + 3;
    assert evs[a + 2..][b + 1..] == evs[j..];
    IfElseCalls(bt, thn, els, evs, a, b);
  }

  lemma ElseReads(table: Table, acc: Code, bt: BlockType, thn: Code, bs: seq<byte>, all: (Code, Stop, seq<byte>))
    returns (els: Code, rest: seq<byte>)
    requires ReadsOn(table, acc, KIf, bt, thn, AtElse, bs, Some(all))
    ensures DecCode(table, Empty, bs) == Some((els, AtEnd, rest))
    ensures DecCode(table, Snoc(acc, IfElse(bt, thn, els)), rest) == Some(all)
  {
    els, rest := DecCode(table, Empty, bs).value.0, DecCode(table, Empty, bs).value.2;
  }

  lemma {:induction false} IfElseSpells(
    table: Table, acc: Code, evs: seq<Event>, bt: BlockType, thn: Code, a: nat, all: (Code, Stop, seq<byte>))
    returns (n: nat)
    requires TableOk(table) && EventsOk(table, evs)
    requires a + 1 < |evs| && evs[0] == Start(KIf, bt) && evs[a + 1] == Else && Flatten(thn) == evs[1..][..a]
    requires ReadsOn(table, acc, KIf, bt, thn, AtElse, EncEvents(evs[a + 2..]), Some(all))
    ensures Spells(acc, evs, n, all.0, all.1, all.2)
    decreases |evs|, 1
  {
    var els, rest := ElseReads(table, acc, bt, thn, EncEvents(evs[a + 2..]), all);
    var b := DecodedSpells(table, Empty, evs[a + 2..]);
    var j := ElseArm(evs, a, b, bt, thn, els, rest);
    n := InstrSpells(table, acc, IfElse(bt, thn, els), evs, j, all);
  }

  // Behind an instruction that the first j calls made.
  lemma {:induction false} InstrSpells(
    table: Table, acc: Code, i: Instr, evs: seq<Event>, j: nat, all: (Code, Stop, seq<byte>))
    returns (n: nat)
    requires TableOk(table) && EventsOk(table, evs) && 0 < j <= |evs| && FlattenInstr(i) == evs[..j]
    requires DecCode(table, Snoc(acc, i), EncEvents(evs[j..])) == Some(all)
    ensures Spells(acc, evs, n, all.0, all.1, all.2)
    decreases |evs|, 0
  {
    n := DecodedSpells(table, Snoc(acc, i), evs[j..]);
    n := SpellsOn(acc, i, evs, j, n, all.0, all.1, all.2);
  }

  // Every call takes bytes.
  lemma NoBytesNoCalls(table: Table, evs: seq<Event>)
    requires TableOk(table) && EventsOk(table, evs) && EncEvents(evs) == []
    ensures evs == []
  {
    NextCall(table, evs);
  }

  // The bytes of any calls and a final end decode to a body, with nothing left over, if and only if the
  // calls spell that body.
  lemma DecodesIffSpelt(table: Table, evs: seq<Event>, c: Code)
    requires TableOk(table) && EventsOk(table, evs)
    ensures DecCode(table, Empty, EncEvents(evs) + [0x0B]) == Some((c, AtEnd, [])) <==> Flatten(c) == evs
  {
    EncAllSnoc(EncEvent, evs, End);
    var all := evs + [End];
    assert EncEvents(all) == EncEvents(evs) + [0x0B];
    if Flatten(c) == evs {
      CallsMakeCode(table, c);
      ArmReads(table, c, End, []);
      assert EncEvent(End) + [] == [0x0B];
    }
    if DecCode(table, Empty, EncEvents(all)) == Some((c, AtEnd, [])) {
      var n := DecodedSpells(table, Empty, all);
      NoBytesNoCalls(table, all[n + 1..]);
      assert all[..n] == evs;
    }
  }
}
