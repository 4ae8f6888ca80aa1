/**
 The last pass of the assembler: size every section, reserve once, write the module. The size is
 exact, and the one reservation leaves at most one further growth, exactly when a section starts so
 close to the end of the buffer that the room asked for its size field does not fit.
 */
module Output {
  import opened Leb128
  import opened Buffers
  import opened Codec
  import opened ModuleFormat

  // Where section k starts.
  function Offset(secs: seq<Chunk>, k: nat): nat
    requires k <= |secs|
  {
    8 + |EncChunks(secs[..k])|
  }

  // Some section's id byte and the room asked for its size do not fit the capacity.
  predicate Tight(secs: seq<Chunk>, k: nat, capacity: nat)
    requires k <= |secs|
  {
    exists j :: 0 <= j < k && capacity < Offset(secs, j) + 1 + 10
  }

  lemma OffsetStep(secs: seq<Chunk>, k: nat)
    requires k < |secs|
    ensures EncChunks(secs[..k + 1]) == EncChunks(secs[..k]) + EncChunk(secs[k])
    ensures Offset(secs, k + 1) == Offset(secs, k) + 1 + |ULEB(|secs[k].body|)| + |secs[k].body|
  {
    assert secs[..k + 1][..k] == secs[..k];
  }

  lemma {:induction false} OffsetBelow(secs: seq<Chunk>, k: nat)
    requires k <= |secs|
    ensures Offset(secs, k) <= Offset(secs, |secs|)
    decreases |secs| - k
  {
    if k < |secs| {
      OffsetStep(secs, k);
      OffsetBelow(secs, k + 1);
    }
  }

  // The sum of the section sizes is the length of the module.
  method TotalSize(secs: seq<Chunk>) returns (total: nat)
    requires forall c | c in secs :: IsU64(|c.body|)
    ensures total == 8 + |EncChunks(secs)| == Offset(secs, |secs|)
  {
    total := |MAGIC|;
    for i := 0 to |secs|
      invariant total == Offset(secs, i)
    {
      OffsetStep(secs, i);
      var n := SizeULEB(|secs[i].body|);
      total := total + 1 + n + |secs[i].body|;
    }
    assert secs[..|secs|] == secs;
  }

  // Only the size field can make the buffer grow, and after growing there is room for all the rest.
  method PutSection(out: CodeBuffer, c: Chunk, ghost total: nat)
    requires out.Valid() && IsU64(|c.body|)
    requires 64 <= out.capacity && out.size + |EncChunk(c)| <= total <= out.capacity
    modifies out, out.data
    ensures out.Appended(EncChunk(c))
    ensures old(out.capacity) < old(out.size) + 1 + 10 ==>
              out.growths == old(out.growths) + 1 && total + 10 <= out.capacity
    ensures old(out.size) + 1 + 10 <= old(out.capacity) ==>
              out.growths == old(out.growths) && out.capacity == old(out.capacity)
  {
    ghost var start, length := out.Contents(), ULEB(|c.body|);
    Assoc(start, [c.id], length);
    Assoc(start, [c.id] + length, c.body);
    Assoc([c.id], length, c.body);
    out.PutU8(c.id);
    out.PutULEB(|c.body|);
    out.PutBytes(c.body);
  }

  method PutSections(out: CodeBuffer, secs: seq<Chunk>)
    requires out.Valid() && out.Contents() == MAGIC && forall c | c in secs :: IsU64(|c.body|)
    requires 64 <= out.capacity && Offset(secs, |secs|) <= out.capacity
    modifies out, out.data
    ensures out.Valid() && out.Contents() == MAGIC + EncChunks(secs)
    ensures out.growths == old(out.growths) + if Tight(secs, |secs|, old(out.capacity)) then 1 else 0
    ensures out.data == old(out.data) || fresh(out.data)
  {
    ghost var total, room := Offset(secs, |secs|), out.capacity;
    for i := 0 to |secs|
      invariant out.Valid() && out.Contents() == MAGIC + EncChunks(secs[..i])
      invariant out.data == old(out.data) || fresh(out.data)
      invariant !Tight(secs, i, room) ==> out.growths == old(out.growths) && out.capacity == room
      invariant Tight(secs, i, room) ==>
                  out.growths == old(out.growths) + 1 && total + 10 <= out.capacity
    {
      OffsetStep(secs, i);
      OffsetBelow(secs, i + 1);
      Assoc(MAGIC, EncChunks(secs[..i]), EncChunk(secs[i]));
      TightStep(secs, i, room);
      PutSection(out, secs[i], total);
    }
    assert secs[..|secs|] == secs;
  }

  lemma TightStep(secs: seq<Chunk>, k: nat, capacity: nat)
    requires k < |secs|
    ensures Tight(secs, k + 1, capacity) <==> Tight(secs, k, capacity) || capacity < Offset(secs, k) + 1 + 10
  {}

  // The capacity a reservation for `total` bytes leaves.
  function RoomFor(capacity: nat, total: nat): nat {
    if total <= capacity then capacity
    else Max(if capacity != 0 then 2 * capacity else 64, total)
  }

  method WriteModule(out: CodeBuffer, secs: seq<Chunk>)
    requires out.Valid() && out.Contents() == [] && forall c | c in secs :: IsU64(|c.body|)
    modifies out, out.data
    ensures out.Valid() && out.Contents() == [0x00, 0x61, 0x73, 0x6D, 0x01, 0x00, 0x00, 0x00] + EncChunks(secs)
    ensures out.data == old(out.data) || fresh(out.data)
    ensures var total := 8 + |EncChunks(secs)|;
      out.growths == old(out.growths) + (if total > old(out.capacity) then 1 else 0)
                     + (if Tight(secs, |secs|, RoomFor(old(out.capacity), total)) then 1 else 0)
  {
    var total := TotalSize(secs);
    OffsetBelow(secs, 0);
    out.Reserve(total);
    out.PutBytes(MAGIC);
    PutSections(out, secs);
  }
}
