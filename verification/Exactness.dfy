/**
 A checked segment stands for a set of concrete stacks. Every step of the machine computes exactly
 the image of that set under declarative typing, and fails exactly when the image is empty.
 */
module Exactness {
  import opened Syntax
  import opened Typing
  import opened Machine

  // The concrete stacks a segment stands for: each Unknown is any type, and a polymorphic segment
  // may rest on any further operands.
  predicate Rep(g: Segment, s: seq<ValType>)
    decreases |g.slots|
  {
    if g.slots == [] then g.poly || s == []
    else
      && s != []
      && Fits(g.slots[|g.slots| - 1], s[|s| - 1])
      && Rep(g.(slots := g.slots[..|g.slots| - 1]), s[..|s| - 1])
  }

  // One stack the segment stands for.
  function Fill(g: Segment): (s: seq<ValType>)
    ensures Rep(g, s)
    decreases |g.slots|
  {
    if g.slots == [] then []
    else
      var x := g.slots[|g.slots| - 1];
      var t := if x == Unknown then I32 else x.t;
      var init := Fill(g.(slots := g.slots[..|g.slots| - 1]));
      assert (init + [t])[..|init|] == init;
      init + [t]
  }

  lemma PushRep(g: Segment, x: Slot, s: seq<ValType>)
    ensures Rep(Push(g, x), s) <==> s != [] && Fits(x, s[|s| - 1]) && Rep(g, s[..|s| - 1])
  {
    assert (g.slots + [x])[..|g.slots|] == g.slots;
  }

  lemma PopAnyRep(g: Segment, s: seq<ValType>, t: ValType)
    ensures Rep(g, s + [t])
            <==> PopAny(g).Some? && Fits(PopAny(g).value.0, t) && Rep(PopAny(g).value.1, s)
  {
    assert (s + [t])[..|s|] == s;
  }

  lemma PopExpectRep(g: Segment, s: seq<ValType>, t: ValType)
    ensures Rep(g, s + [t])
            <==> PopExpect(g, Known(t)).Some? && Rep(PopExpect(g, Known(t)).value.1, s)
  {
    PopAnyRep(g, s, t);
  }

  lemma {:induction false} PopListRep(g: Segment, ts: seq<ValType>, s: seq<ValType>)
    ensures Rep(g, s + ts) <==> PopList(g, ts).Some? && Rep(PopList(g, ts).value, s)
    decreases |ts|
  {
    if ts == [] {
      assert s + ts == s;
    } else {
      var n := |ts| - 1;
      assert s + ts == (s + ts[..n]) + [ts[n]];
      PopExpectRep(g, s + ts[..n], ts[n]);
      if PopExpect(g, Known(ts[n])).Some? {
        PopListRep(PopExpect(g, Known(ts[n])).value.1, ts[..n], s);
      }
    }
  }

  // A sequence ends with ts exactly when its last element and the rest do.
  lemma EndsSnoc(init: seq<ValType>, x: ValType, ts: seq<ValType>)
    requires ts != []
    ensures var n := |ts| - 1;
      Ends(init + [x], ts) <==> x == ts[n] && Ends(init, ts[..n])
    ensures Ends(init + [x], ts) ==> Below(init + [x], ts) == Below(init, ts[..|ts| - 1])
  {
    var n := |ts| - 1;
    var s := init + [x];
    assert ts == ts[..n] + [ts[n]];
    if n <= |init| {
      assert s[|s| - |ts|..] == init[|init| - n..] + [x];
      assert s[..|s| - |ts|] == init[..|init| - n];
    }
  }

  lemma {:induction false} PushListRep(g: Segment, ts: seq<ValType>, s: seq<ValType>)
    ensures Rep(PushList(g, ts), s) <==> Ends(s, ts) && Rep(g, Below(s, ts))
    decreases |ts|
  {
    if ts == [] {
      assert g.slots + KnownAll(ts) == g.slots;
      assert s[..|s|] == s;
    } else {
      var n := |ts| - 1;
      PushListSnoc(g, ts[..n], ts[n]);
      assert ts == ts[..n] + [ts[n]];
      PushRep(PushList(g, ts[..n]), Known(ts[n]), s);
      if s != [] {
        var init, x := s[..|s| - 1], s[|s| - 1];
        assert s == init + [x];
        PushListRep(g, ts[..n], init);
        EndsSnoc(init, x, ts);
      }
    }
  }

  lemma PushListSnoc(g: Segment, ts: seq<ValType>, t: ValType)
    ensures PushList(g, ts + [t]) == Push(PushList(g, ts), Known(t))
  {
    assert (ts + [t])[..|ts|] == ts;
    assert g.slots + KnownAll(ts + [t]) == (g.slots + KnownAll(ts)) + [Known(t)];
  }

  lemma EndsSplit(s: seq<ValType>, ts: seq<ValType>)
    requires Ends(s, ts)
    ensures s == Below(s, ts) + ts
  {}

  lemma EndsJoin(s: seq<ValType>, ts: seq<ValType>)
    ensures Ends(s + ts, ts) && Below(s + ts, ts) == s
  {}

  // Rewriting a represented stack lands in the segment that pops and pushes the same types, and
  // every stack of that segment is reached.
  lemma RewriteComplete(g: Segment, pops: seq<ValType>, pushes: seq<ValType>, s1: seq<ValType>, s2: seq<ValType>)
    requires Rep(g, s1) && Rewrites(s1, pops, s2, pushes)
    ensures PopList(g, pops).Some? && Rep(PushList(PopList(g, pops).value, pushes), s2)
  {
    EndsSplit(s1, pops);
    PopListRep(g, pops, Below(s1, pops));
    EndsJoin(Below(s1, pops), pushes);
    PushListRep(PopList(g, pops).value, pushes, s2);
  }

  lemma RewriteSound(g: Segment, pops: seq<ValType>, pushes: seq<ValType>, s2: seq<ValType>) returns (s1: seq<ValType>)
    requires PopList(g, pops).Some? && Rep(PushList(PopList(g, pops).value, pushes), s2)
    ensures Rep(g, s1) && Rewrites(s1, pops, s2, pushes)
  {
    PushListRep(PopList(g, pops).value, pushes, s2);
    EndsSplit(s2, pushes);
    var rest := Below(s2, pushes);
    s1 := rest + pops;
    PopListRep(g, pops, rest);
    EndsJoin(rest, pops);
  }

  lemma ThreeOnTop(rest: seq<ValType>, t: ValType)
    ensures rest + [t, t, I32] == ((rest + [t]) + [t]) + [I32]
  {}

  lemma SelectComplete(g: Segment, rest: seq<ValType>, t: ValType)
    requires Rep(g, rest + [t, t, I32])
    ensures SelectSlots(g).Some? && Rep(SelectSlots(g).value, rest + [t])
  {
    ThreeOnTop(rest, t);
    var one := rest + [t];
    var two := one + [t];
    PopExpectRep(g, two, I32);
    var g1 := PopExpect(g, Known(I32)).value.1;
    PopAnyRep(g1, one, t);
    SelectRest(PopAny(g1).value.0, PopAny(g1).value.1, rest, t);
  }

  lemma PushOneRep(g: Segment, x: Slot, s: seq<ValType>, t: ValType)
    requires Fits(x, t) && Rep(g, s)
    ensures Rep(Push(g, x), s + [t])
  {
    PushRep(g, x, s + [t]);
    assert (s + [t])[..|s|] == s;
  }

  // The two operands of a select, the upper one already popped.
  lemma SelectRest(t2: Slot, g2: Segment, rest: seq<ValType>, t: ValType)
    requires Fits(t2, t) && Rep(g2, rest + [t])
    ensures PopExpect(g2, t2).Some?
    ensures var (t1, g3) := PopExpect(g2, t2).value;
      Rep(Push(g3, if t1 == Unknown then t2 else t1), rest + [t])
  {
    PopAnyRep(g2, rest, t);
    var (x, g3) := PopAny(g2).value;
    assert PopExpect(g2, t2).Some? && PopExpect(g2, t2).value == (x, g3);
    PushOneRep(g3, if x == Unknown then t2 else x, rest, t);
  }

  lemma SelectSound(g: Segment, s2: seq<ValType>) returns (rest: seq<ValType>, t: ValType)
    requires SelectSlots(g).Some? && Rep(SelectSlots(g).value, s2)
    ensures s2 == rest + [t] && Rep(g, rest + [t, t, I32])
  {
    var g1 := PopExpect(g, Known(I32)).value.1;
    var (t2, g2) := PopAny(g1).value;
    var (t1, g3) := PopAny(g2).value;
    PushRep(g3, if t1 == Unknown then t2 else t1, s2);
    rest, t := s2[..|s2| - 1], s2[|s2| - 1];
    PopAnyRep(g2, rest, t);
    PopAnyRep(g1, rest + [t], t);
    PopExpectRep(g, (rest + [t]) + [t], I32);
    assert rest + [t, t, I32] == ((rest + [t]) + [t]) + [I32];
  }

  lemma AnyComplete(g: Segment, t: ValType, pushes: seq<ValType>, s1: seq<ValType>, s2: seq<ValType>)
    requires Rep(g, s1) && Rewrites(s1, [t], s2, pushes)
    ensures PopAny(g).Some? && Rep(PushList(PopAny(g).value.1, pushes), s2)
  {
    var rest := Below(s1, [t]);
    EndsSplit(s1, [t]);
    PopAnyRep(g, rest, t);
    EndsJoin(rest, pushes);
    PushListRep(PopAny(g).value.1, pushes, s2);
  }

  lemma StopComplete(g: Segment, pops: seq<ValType>, s1: seq<ValType>)
    requires Rep(g, s1) && Ends(s1, pops)
    ensures PopList(g, pops).Some?
  {
    EndsSplit(s1, pops);
    PopListRep(g, pops, Below(s1, pops));
  }

  lemma DropComplete(g: Segment, s1: seq<ValType>, s2: seq<ValType>)
    requires Rep(g, s1) && TypedEffect(DropOne, s1, s2)
    ensures ApplyEffect(g, DropOne).Some? && Rep(ApplyEffect(g, DropOne).value, s2)
  {
    var t: ValType :| Rewrites(s1, [t], s2, []);
    AnyComplete(g, t, [], s1, s2);
    assert PopAny(g).value.1.slots + KnownAll([]) == PopAny(g).value.1.slots;
  }

  lemma TestComplete(g: Segment, s1: seq<ValType>, s2: seq<ValType>)
    requires Rep(g, s1) && TypedEffect(TestOne, s1, s2)
    ensures ApplyEffect(g, TestOne).Some? && Rep(ApplyEffect(g, TestOne).value, s2)
  {
    var t: ValType :| Rewrites(s1, [t], s2, [I32]);
    AnyComplete(g, t, [I32], s1, s2);
    assert KnownAll([I32]) == [Known(I32)];
  }

  lemma SelectOneComplete(g: Segment, s1: seq<ValType>, s2: seq<ValType>)
    requires Rep(g, s1) && TypedEffect(SelectOne, s1, s2)
    ensures SelectSlots(g).Some? && Rep(SelectSlots(g).value, s2)
  {
    var t: ValType :| Rewrites(s1, [t, t, I32], s2, [t]);
    EndsSplit(s1, [t, t, I32]);
    SelectComplete(g, Below(s1, [t, t, I32]), t);
  }

  lemma EffectComplete(g: Segment, eff: Effect, s1: seq<ValType>, s2: seq<ValType>)
    requires Rep(g, s1) && TypedEffect(eff, s1, s2)
    ensures ApplyEffect(g, eff).Some? && Rep(ApplyEffect(g, eff).value, s2)
  {
    match eff
    case Arrow(pops, pushes) => RewriteComplete(g, pops, pushes, s1, s2);
    case Stop(pops) => StopComplete(g, pops, s1);
    case DropOne => DropComplete(g, s1, s2);
    case SelectOne => SelectOneComplete(g, s1, s2);
    case TestOne => TestComplete(g, s1, s2);
  }

  // Popping any one value, then pushing fixed types.
  lemma AnySound(g: Segment, pushes: seq<ValType>, s2: seq<ValType>) returns (s1: seq<ValType>, t: ValType)
    requires PopAny(g).Some? && Rep(PushList(PopAny(g).value.1, pushes), s2)
    ensures Rep(g, s1) && Rewrites(s1, [t], s2, pushes)
  {
    var (x, g') := PopAny(g).value;
    t := if x == Unknown then I32 else x.t;
    PushListRep(g', pushes, s2);
    var rest := Below(s2, pushes);
    PopAnyRep(g, rest, t);
    s1 := rest + [t];
    EndsJoin(rest, [t]);
    EndsSplit(s2, pushes);
  }

  lemma StopSound(g: Segment, pops: seq<ValType>) returns (s1: seq<ValType>)
    requires PopList(g, pops).Some?
    ensures Rep(g, s1) && Ends(s1, pops)
  {
    var rest := Fill(PopList(g, pops).value);
    PopListRep(g, pops, rest);
    EndsJoin(rest, pops);
    s1 := rest + pops;
  }

  lemma EffectSound(g: Segment, eff: Effect, s2: seq<ValType>) returns (s1: seq<ValType>)
    requires ApplyEffect(g, eff).Some? && Rep(ApplyEffect(g, eff).value, s2)
    ensures Rep(g, s1) && TypedEffect(eff, s1, s2)
  {
    match eff
    case Arrow(pops, pushes) => s1 := RewriteSound(g, pops, pushes, s2);
    case Stop(pops) => s1 := StopSound(g, pops);
    case DropOne =>
      var g' := PopAny(g).value.1;
      assert g'.slots + KnownAll([]) == g'.slots;
      var t;
      s1, t := AnySound(g, [], s2);
    case SelectOne =>
      var rest, t := SelectSound(g, s2);
      s1 := rest + [t, t, I32];
      EndsJoin(rest, [t, t, I32]);
      assert Rewrites(s1, [t, t, I32], s2, [t]);
    case TestOne =>
      assert KnownAll([I32]) == [Known(I32)];
      var t;
      s1, t := AnySound(g, [I32], s2);
  }

  // One instruction: the machine fails exactly when no represented stack is acceptable, and
  // otherwise its new segment stands for exactly the stacks the instruction can produce.
  lemma EffectExact(g: Segment, eff: Effect)
    ensures ApplyEffect(g, eff).Some? <==> exists s1, s2 :: Rep(g, s1) && TypedEffect(eff, s1, s2)
    ensures ApplyEffect(g, eff).Some? ==>
              forall s2 :: Rep(ApplyEffect(g, eff).value, s2)
                           <==> exists s1 :: Rep(g, s1) && TypedEffect(eff, s1, s2)
  {
    forall s1, s2 | Rep(g, s1) && TypedEffect(eff, s1, s2)
      ensures ApplyEffect(g, eff).Some? && Rep(ApplyEffect(g, eff).value, s2)
    {
      EffectComplete(g, eff, s1, s2);
    }
    if ApplyEffect(g, eff).Some? {
      var g' := ApplyEffect(g, eff).value;
      forall s2 | Rep(g', s2)
        ensures exists s1 :: Rep(g, s1) && TypedEffect(eff, s1, s2)
      {
        var s1 := EffectSound(g, eff, s2);
      }
      assert Rep(g', Fill(g'));
    }
  }
}
