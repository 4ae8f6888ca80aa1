/**
 Several emitters may work at once. A schedule mixes their calls and the handing in of their bodies in
 any order; what each of them was told, by itself, decides the module that comes out.
 */
module Interleaving {
  import opened Encoding
  import opened Body
  import opened Acceptance
  import opened Emission
  import opened ModuleFormat
  import opened IndexSpaces

  // Emitter id gets a call, or its body is handed in for function `at`. Handing in includes the reset, or the
  // new signature, with which the emitter starts over.
  datatype Act = Work(id: nat, call: Call) | Deliver(id: nat, at: nat)

  // The calls emitter id has had for its present body.
  function Log(acts: seq<Act>, id: nat): seq<Call> {
    if acts == [] then []
    else
      var before, last := Log(acts[..|acts| - 1], id), acts[|acts| - 1];
      if last.id != id then before else if last.Work? then before + [last.call] else []
  }

  // The buffers Finish leaves for these calls.
  function BodyFor(calls: seq<Call>): BodyBytes {
    BodyBytes(EncLocals(RunsOf(calls)), EncEvents(EventsOf(calls)) + [0x0B])
  }

  // The bodies handed in, in that order.
  function Delivered(acts: seq<Act>): seq<Definition> {
    if acts == [] then []
    else
      var init, last := acts[..|acts| - 1], acts[|acts| - 1];
      if last.Work? then Delivered(init)
      else Delivered(init) + [Definition(last.at, BodyFor(Log(init, last.id)))]
  }

  // What one emitter was told.
  function Of(acts: seq<Act>, id: nat): seq<Act> {
    if acts == [] then []
    else
      var before, last := Of(acts[..|acts| - 1], id), acts[|acts| - 1];
      if last.id == id then before + [last] else before
  }

  lemma LogSnoc(acts: seq<Act>, act: Act, id: nat)
    ensures Log(acts + [act], id)
            == if act.id != id then Log(acts, id) else if act.Work? then Log(acts, id) + [act.call] else []
  {
    assert (acts + [act])[..|acts|] == acts;
  }

  lemma DeliveredSnoc(acts: seq<Act>, act: Act)
    ensures Delivered(acts + [act])
            == if act.Work? then Delivered(acts)
               else Delivered(acts) + [Definition(act.at, BodyFor(Log(acts, act.id)))]
  {
    assert (acts + [act])[..|acts|] == acts;
  }

  // An emitter's log is its own affair.
  lemma {:induction false} LogIsOwn(acts: seq<Act>, id: nat)
    ensures Log(Of(acts, id), id) == Log(acts, id)
    decreases |acts|
  {
    if acts != [] {
      var init, last := acts[..|acts| - 1], acts[|acts| - 1];
      LogIsOwn(init, id);
      LogSnoc(Of(init, id), last, id);
    }
  }

  // One more act adds to what its own emitter hands in, if it hands in.
  lemma OneMoreOf(init: seq<Act>, last: Act, id: nat, d: Definition)
    ensures d in Delivered(Of(init + [last], id)) <==>
              d in Delivered(Of(init, id))
              || (last.Deliver? && last.id == id && d == Definition(last.at, BodyFor(Log(init, id))))
  {
    assert (init + [last])[..|init|] == init;
    LogIsOwn(init, id);
    DeliveredSnoc(Of(init, id), last);
  }

  // A body is handed in by the schedule if and only if one of the emitters hands it in by itself.
  lemma {:induction false} HandedInBy(acts: seq<Act>, d: Definition) returns (id: nat)
    requires d in Delivered(acts)
    ensures d in Delivered(Of(acts, id))
    decreases |acts|
  {
    var init, last := acts[..|acts| - 1], acts[|acts| - 1];
    assert acts == init + [last];
    DeliveredSnoc(init, last);
    if d in Delivered(init) {
      id := HandedInBy(init, d);
    } else {
      id := last.id;
    }
    OneMoreOf(init, last, id, d);
  }

  lemma {:induction false} OwnIsHandedIn(acts: seq<Act>, id: nat, d: Definition)
    requires d in Delivered(Of(acts, id))
    ensures d in Delivered(acts)
    decreases |acts|
  {
    if acts != [] {
      var init, last := acts[..|acts| - 1], acts[|acts| - 1];
      assert acts == init + [last];
      DeliveredSnoc(init, last);
      OneMoreOf(init, last, id, d);
      if d in Delivered(Of(init, id)) {
        OwnIsHandedIn(init, id, d);
      }
    }
  }

  // Every emitter is told the same.
  ghost predicate SameWork(a: seq<Act>, b: seq<Act>) {
    forall id :: Of(a, id) == Of(b, id)
  }

  lemma SameHandedIn(a: seq<Act>, b: seq<Act>, d: Definition)
    requires SameWork(a, b) && d in Delivered(a)
    ensures d in Delivered(b)
  {
    var id := HandedInBy(a, d);
    assert Of(a, id) == Of(b, id);
    OwnIsHandedIn(b, id, d);
  }

  // Bodies go to functions there are, and no function gets two.
  predicate OncePerFunction(acts: seq<Act>, n: nat) {
    DistinctPlaces(Delivered(acts)) && forall d | d in Delivered(acts) :: d.at < n
  }

  // Schedules in which every emitter is told the same make the same module, however they are interleaved.
  lemma InterleavingIsInvisible(m: ModuleData, funcs: seq<DefinedFunc>, a: seq<Act>, b: seq<Act>)
    requires OncePerFunction(a, |funcs|) && OncePerFunction(b, |funcs|) && SameWork(a, b)
    ensures DefineAll(funcs, Delivered(a)) == DefineAll(funcs, Delivered(b))
    ensures EncModule(m.(funcs := IndexSpaces.Finished(DefineAll(funcs, Delivered(a)))))
            == EncModule(m.(funcs := IndexSpaces.Finished(DefineAll(funcs, Delivered(b)))))
  {
    SameModule(funcs, a, b);
  }

  lemma SameModule(funcs: seq<DefinedFunc>, a: seq<Act>, b: seq<Act>)
    requires OncePerFunction(a, |funcs|) && OncePerFunction(b, |funcs|) && SameWork(a, b)
    ensures DefineAll(funcs, Delivered(a)) == DefineAll(funcs, Delivered(b))
  {
    forall d
      ensures d in Delivered(a) <==> d in Delivered(b)
    {
      if d in Delivered(a) {
        SameHandedIn(a, b, d);
      }
      if d in Delivered(b) {
        SameHandedIn(b, a, d);
      }
    }
    DefinitionsCommute(funcs, Delivered(a), Delivered(b));
  }
}
