/**
 The type interner: an open-addressing table of indices, probed linearly and rehashed at three
 quarters full, that agrees with a linear search for every hash function.
 */
module Interning {
  import opened Syntax

  /* The simple form. */

  // The first index at which sig is stored; |types| when it is not.
  function FirstIndex(types: seq<FuncType>, sig: FuncType): (k: nat)
    ensures k <= |types|
    ensures k < |types| ==> types[k] == sig
    ensures forall j | 0 <= j < k :: types[j] != sig
  {
    if types == [] then 0
    else if types[0] == sig then 0
    else
      var k := FirstIndex(types[1..], sig);
      assert forall j | 1 <= j < k + 1 :: types[j] == types[1..][j - 1];
      k + 1
  }

  function Intern(types: seq<FuncType>, sig: FuncType): seq<FuncType> {
    if FirstIndex(types, sig) < |types| then types else types + [sig]
  }

  function InternAll(types: seq<FuncType>, sigs: seq<FuncType>): seq<FuncType> {
    if sigs == [] then types else Intern(InternAll(types, sigs[..|sigs| - 1]), sigs[|sigs| - 1])
  }

  predicate Distinct<T(==)>(s: seq<T>) {
    forall i, j | 0 <= i < j < |s| :: s[i] != s[j]
  }

  // Interning only ever appends, so every index keeps its meaning; the table lists the signatures
  // asked for, each once, in the order they were first asked for.
  lemma {:induction false} InternAllFacts(types: seq<FuncType>, sigs: seq<FuncType>)
    requires Distinct(types)
    ensures types <= InternAll(types, sigs) && Distinct(InternAll(types, sigs))
    ensures forall k | 0 <= k < |sigs| :: sigs[k] in InternAll(types, sigs)
    ensures forall t | t in InternAll(types, sigs) :: t in types || t in sigs
    decreases |sigs|
  {
    if sigs != [] {
      var init, last := sigs[..|sigs| - 1], sigs[|sigs| - 1];
      InternAllFacts(types, init);
      forall k | 0 <= k < |sigs|
        ensures sigs[k] in InternAll(types, sigs)
      {
        if k < |init| {
          assert init[k] in InternAll(types, init);
        } else {
          assert FirstIndex(InternAll(types, init), last) < |InternAll(types, init)|
                 || InternAll(types, sigs)[|InternAll(types, init)|] == last;
        }
      }
    }
  }

  // The index given for the k-th request names that signature in every later table, and is the
  // index every later request for the same signature gets.
  lemma {:induction false} IndexIsStable(types: seq<FuncType>, sigs: seq<FuncType>, k: nat)
    requires Distinct(types) && k < |sigs|
    ensures var now := FirstIndex(InternAll(types, sigs[..k]), sigs[k]);
      && now < |InternAll(types, sigs)| && InternAll(types, sigs)[now] == sigs[k]
      && now == FirstIndex(InternAll(types, sigs), sigs[k])
    decreases |sigs|
  {
    var init := sigs[..|sigs| - 1];
    InternAllFacts(types, init);
    if k < |init| {
      IndexIsStable(types, init, k);
      assert init[..k] == sigs[..k] && init[k] == sigs[k];
      FirstIndexInPrefix(InternAll(types, init), InternAll(types, sigs), sigs[k]);
    } else {
      assert init == sigs[..k];
      InternedAt(InternAll(types, init), sigs[k]);
    }
  }

  lemma InternedAt(types: seq<FuncType>, sig: FuncType)
    ensures FirstIndex(Intern(types, sig), sig) == FirstIndex(types, sig) < |Intern(types, sig)|
  {
    FirstIndexInPrefix(types, Intern(types, sig), sig);
    if FirstIndex(types, sig) == |types| {
      assert Intern(types, sig)[|types|] == sig;
    }
  }

  lemma FirstIndexInPrefix(a: seq<FuncType>, b: seq<FuncType>, sig: FuncType)
    requires a <= b
    ensures FirstIndex(a, sig) < |a| ==> FirstIndex(b, sig) == FirstIndex(a, sig)
    ensures FirstIndex(a, sig) == |a| ==> FirstIndex(b, sig) >= |a|
  {
    var i, j := FirstIndex(a, sig), FirstIndex(b, sig);
    if j < |a| {
      assert a[j] == b[j];
    }
    if i < |a| {
      assert b[i] == a[i];
    }
  }

  /* The table. */

  // j lies on the way from h to p, going up and around; p itself does not count.
  predicate Between(h: nat, j: nat, p: nat) {
    if h <= p then h <= j < p else h <= j || j < p
  }

  // No empty slot from h up to p.
  predicate NoGap(slots: seq<int>, h: nat, p: nat) {
    forall j: nat | j < |slots| && Between(h, j, p) :: slots[j] >= 0
  }

  predicate PowerOfTwo(n: nat) {
    n == 1 || (n > 1 && n % 2 == 0 && PowerOfTwo(n / 2))
  }

  function Home(hash: FuncType -> nat, sig: FuncType, n: nat): (h: nat)
    requires n > 0
    ensures h < n
  {
    hash(sig) % n
  }

  // Type k sits in slot pos[k], reachable from its home; every other slot is empty.
  ghost predicate Placed(hash: FuncType -> nat, types: seq<FuncType>, slots: seq<int>, pos: seq<nat>) {
    && |pos| == |types| && |slots| > 0
    && (forall k: nat | k < |types| :: pos[k] < |slots| && slots[pos[k]] == k)
    && (forall j: nat | j < |slots| :: slots[j] < 0 || (slots[j] < |types| && pos[slots[j]] == j))
    && (forall k: nat | k < |types| :: NoGap(slots, Home(hash, types[k], |slots|), pos[k]))
  }

  function Below(n: nat): (r: set<nat>)
    ensures forall i: nat :: i in r <==> i < n
    ensures |r| == n
  {
    if n == 0 then {} else Below(n - 1) + {n - 1}
  }

  function Elements(s: seq<nat>): (r: set<nat>)
    ensures forall x: nat :: x in r <==> x in s
    ensures |r| <= |s|
  {
    if s == [] then {} else Elements(s[..|s| - 1]) + {s[|s| - 1]}
  }

  lemma SubsetSize(a: set<nat>, b: set<nat>)
    requires a <= b
    ensures |a| <= |b|
  {
    assert b == a + (b - a);
  }

  // Fewer types than slots leaves a slot free.
  lemma FreeSlot(hash: FuncType -> nat, types: seq<FuncType>, slots: seq<int>, pos: seq<nat>) returns (e: nat)
    requires Placed(hash, types, slots, pos) && |types| < |slots|
    ensures e < |slots| && slots[e] < 0
  {
    assert exists j: nat :: j < |slots| && slots[j] < 0 by {
      var taken := set j: nat | j in Below(|slots|) && slots[j] >= 0;
      forall j | j in taken
        ensures j in Elements(pos)
      {
        assert pos[slots[j]] == j;
      }
      SubsetSize(taken, Elements(pos));
      assert taken != Below(|slots|);
      assert taken <= Below(|slots|);
      var j :| j in Below(|slots|) && j !in taken;
    }
    e :| e < |slots| && slots[e] < 0;
  }

  lemma CycleCases(h: nat, i: nat, p: nat)
    ensures Between(h, i, p) || p == i || Between(h, p, i)
  {}

  // A stored signature would have been met on the way to the first empty slot.
  lemma ProbeIsComplete(
    hash: FuncType -> nat, types: seq<FuncType>, slots: seq<int>, pos: seq<nat>, sig: FuncType, i: nat)
    requires Placed(hash, types, slots, pos) && i < |slots| && slots[i] < 0
    requires forall j: nat | j < |slots| && Between(Home(hash, sig, |slots|), j, i) ::
               0 <= slots[j] < |types| && types[slots[j]] != sig
    ensures sig !in types
  {
    forall k: nat | k < |types|
      ensures types[k] != sig
    {
      CycleCases(Home(hash, types[k], |slots|), i, pos[k]);
      assert NoGap(slots, Home(hash, types[k], |slots|), pos[k]);
    }
  }

  // Filling the first empty slot on the way from home keeps every type reachable.
  lemma PlaceOne(hash: FuncType -> nat, types: seq<FuncType>, slots: seq<int>, pos: seq<nat>, sig: FuncType, i: nat)
    requires Placed(hash, types, slots, pos) && i < |slots| && slots[i] < 0
    requires NoGap(slots, Home(hash, sig, |slots|), i)
    ensures Placed(hash, types + [sig], slots[i := |types|], pos + [i])
  {
    var types', slots', pos' := types + [sig], slots[i := |types|], pos + [i];
    forall k: nat | k < |types'|
      ensures NoGap(slots', Home(hash, types'[k], |slots'|), pos'[k])
    {
      if k < |types| {
        assert NoGap(slots, Home(hash, types[k], |slots|), pos[k]);
      }
    }
  }

  // Slots still ahead on the way from i to e.
  function Ahead(i: nat, e: nat, n: nat): nat
    requires i < n && e < n
  {
    if i <= e then e - i else n - i + e
  }

  lemma NextSlot(i: nat, n: nat)
    requires i < n
    ensures (i + 1) % n == if i + 1 < n then i + 1 else 0
  {}

  class Interner {
    // Any function will do; the library uses FNV-1a over the signature's bytes.
    const hash: FuncType -> nat
    var types: seq<FuncType>
    var slots: array<int>

    ghost var pos: seq<nat>

    ghost predicate Valid()
      reads this, slots
    {
      && Distinct(types)
      && (if slots.Length == 0 then types == [] else Sized(|types|) && Placed(hash, types, slots[..], pos))
    }

    // Room for n types at a load of at most three quarters.
    predicate Sized(n: nat)
      reads this
    {
      slots.Length >= 16 && PowerOfTwo(slots.Length) && n * 4 <= slots.Length * 3
    }

    constructor (hash: FuncType -> nat)
      ensures Valid() && types == [] && fresh(slots) && this.hash == hash
    {
      this.hash := hash;
      types := [];
      slots := new int[0];
      pos := [];
    }

    // Walks from the home of sig to the slot that holds it or to the first empty one.
    method Probe(sig: FuncType) returns (i: nat)
      requires slots.Length > 0 && Placed(hash, types, slots[..], pos) && |types| < slots.Length
      ensures i < slots.Length
      ensures slots[i] < 0 ==> sig !in types && NoGap(slots[..], Home(hash, sig, slots.Length), i)
      ensures slots[i] >= 0 ==> slots[i] < |types| && types[slots[i]] == sig
    {
      var n := slots.Length;
      var h := hash(sig) % n;
      i := h;
      ghost var e := FreeSlot(hash, types, slots[..], pos);
      while true
        invariant i < n && (i == e || Between(h, i, e))
        invariant forall j: nat | j < n && Between(h, j, i) ::
            0 <= slots[j] < |types| && types[slots[j]] != sig
        decreases Ahead(i, e, n)
      {
        var slot := slots[i];
        if slot < 0 {
          ProbeIsComplete(hash, types, slots[..], pos, sig, i);
          return;
        }
        if types[slot] == sig {
          return;
        }
        NextSlot(i, n);
        i := (i + 1) % n;
      }
    }

    method EnsureSlots()
      requires Valid()
      modifies this
      ensures Valid() && types == old(types) && Sized(|types| + 1)
      ensures slots == old(slots) || fresh(slots)
    {
      if slots.Length == 0 {
        slots := new int[16](_ => -1);
        pos := [];
        return;
      }
      if (|types| + 1) * 4 <= slots.Length * 3 {
        return;
      }
      slots, pos := Rehashed(slots.Length * 2);
    }

    // The types, in order, placed in a table of n slots.
    method Rehashed(n: nat) returns (next: array<int>, ghost npos: seq<nat>)
      requires |types| < n
      ensures fresh(next) && next.Length == n && Placed(hash, types, next[..], npos)
    {
      next := new int[n](_ => -1);
      npos := [];
      for k := 0 to |types|
        invariant fresh(next) && next.Length == n && |npos| == k
        invariant Placed(hash, types[..k], next[..], npos)
      {
        var i := FindEmpty(next, types[..k], npos, types[k]);
        PlaceOne(hash, types[..k], next[..], npos, types[k], i);
        assert types[..k + 1] == types[..k] + [types[k]];
        next[i] := k;
        npos := npos + [i];
      }
      assert types[..|types|] == types;
    }

    // The rehash loop: the first empty slot from the signature's home.
    method FindEmpty(next: array<int>, ghost done: seq<FuncType>, ghost npos: seq<nat>, sig: FuncType) returns (i: nat)
      requires Placed(hash, done, next[..], npos) && |done| < next.Length
      ensures i < next.Length && next[i] < 0 && NoGap(next[..], Home(hash, sig, next.Length), i)
    {
      var n := next.Length;
      var h := hash(sig) % n;
      i := h;
      ghost var e := FreeSlot(hash, done, next[..], npos);
      while next[i] >= 0
        invariant i < n && (i == e || Between(h, i, e))
        invariant forall j: nat | j < n && Between(h, j, i) :: next[j] >= 0
        decreases Ahead(i, e, n)
      {
        NextSlot(i, n);
        i := (i + 1) % n;
      }
    }

    // The index a linear search would give, or the next index for a new signature.
    method GetIndex(sig: FuncType) returns (idx: nat)
      requires Valid()
      modifies this, slots
      ensures Valid() && (slots == old(slots) || fresh(slots))
      ensures types == Intern(old(types), sig) && idx == FirstIndex(old(types), sig)
    {
      EnsureSlots();
      var i := Probe(sig);
      if slots[i] < 0 {
        idx := |types|;
        PlaceOne(hash, types, slots[..], pos, sig, i);
        types := types + [sig];
        slots[i] := idx;
        pos := pos + [i];
      } else {
        idx := slots[i];
      }
    }
  }
}
