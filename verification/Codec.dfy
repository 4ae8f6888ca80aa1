/** Vectors, names and size-prefixed chunks: the shapes the binary format of a module is made of. */
module Codec {
  import opened Ints
  import opened Leb128

  type Bytes = seq<byte>

  predicate IsU32(v: int) {
    0 <= v < 0x1_0000_0000
  }

  predicate IsU64(v: int) {
    0 <= v < 0x1_0000_0000_0000_0000
  }

  lemma Assoc<T>(a: seq<T>, b: seq<T>, c: seq<T>)
    ensures (a + b) + c == a + (b + c)
  {}

  /* Indices: u32 values. */

  function EncIdx(i: u32): Bytes {
    ULEB(i)
  }

  function DecIdx(bs: Bytes): (r: Option<(u32, Bytes)>)
    ensures r.Some? ==> |r.value.1| < |bs|
  {
    match DecodeU(32, bs)
    case None => None
    case Some((i, r1)) => if IsU32(i) then Some((i as u32, r1)) else None
  }

  lemma U32RoundTrip(v: u32, rest: Bytes)
    ensures DecodeU(32, ULEB(v) + rest) == Some((v, rest))
  {
    Pow2Values();
    RoundTripU(32, v, rest);
  }

  lemma IdxRoundTrip(i: u32, rest: Bytes)
    ensures DecIdx(ULEB(i) + rest) == Some((i, rest))
  {
    U32RoundTrip(i, rest);
  }

  lemma IdxReads(i: u32)
    ensures Reads(EncIdx, DecIdx, i)
  {
    forall rest: Bytes
      ensures DecIdx(EncIdx(i) + rest) == Some((i, rest))
    {
      IdxRoundTrip(i, rest);
    }
  }

  /* Addresses and sizes: u32 values, and u64 values where 64-bit memories have them. */

  predicate AddrOk(wide: bool, v: u64) {
    wide || IsU32(v)
  }

  function DecAddr(wide: bool, bs: Bytes): (r: Option<(u64, Bytes)>)
    ensures r.Some? ==> |r.value.1| < |bs|
  {
    match DecodeU(if wide then 64 else 32, bs)
    case None => None
    case Some((v, rest)) => if IsU64(v) then Some((v as u64, rest)) else None
  }

  // A value is read back if it fits, and not read at all if it does not.
  lemma AddrRoundTrip(wide: bool, v: u64, rest: Bytes)
    ensures DecAddr(wide, ULEB(v) + rest) == if AddrOk(wide, v) then Some((v, rest)) else None
  {
    Pow2Values();
    if AddrOk(wide, v) {
      RoundTripU(if wide then 64 else 32, v, rest);
    } else {
      TooWideU(32, v, rest);
    }
  }

  // A decoder takes a value off the front of its input.
  type Decoder<T> = Bytes -> Option<(T, Bytes)>

  /* Vectors (section 5.1.3). */

  function EncAll<T>(f: T -> Bytes, xs: seq<T>): Bytes {
    if xs == [] then [] else EncAll(f, xs[..|xs| - 1]) + f(xs[|xs| - 1])
  }

  function EncVec<T>(f: T -> Bytes, xs: seq<T>): Bytes {
    ULEB(|xs|) + EncAll(f, xs)
  }

  function DecAll<T>(d: Decoder<T>, n: nat, bs: Bytes): Option<(seq<T>, Bytes)> {
    if n == 0 then Some(([], bs))
    else
      match d(bs)
      case None => None
      case Some((x, r1)) =>
        match DecAll(d, n - 1, r1) case None => None case Some((xs, r2)) => Some(([x] + xs, r2))
  }

  function DecVec<T>(d: Decoder<T>, bs: Bytes): Option<(seq<T>, Bytes)> {
    match DecIdx(bs) case None => None case Some((n, rest)) => DecAll(d, n, rest)
  }

  // d reads back what f wrote for x, whatever follows.
  ghost predicate Reads<T>(f: T -> Bytes, d: Decoder<T>, x: T) {
    forall rest: Bytes :: d(f(x) + rest) == Some((x, rest))
  }

  lemma {:induction false} EncAllFront<T>(f: T -> Bytes, xs: seq<T>)
    requires xs != []
    ensures EncAll(f, xs) == f(xs[0]) + EncAll(f, xs[1..])
    decreases |xs|
  {
    if |xs| > 1 {
      var init := xs[..|xs| - 1];
      EncAllFront(f, init);
      assert xs[1..][..|xs| - 2] == init[1..];
      Assoc(f(xs[0]), EncAll(f, init[1..]), f(xs[|xs| - 1]));
    }
  }

  lemma EncAllSnoc<T>(f: T -> Bytes, xs: seq<T>, x: T)
    ensures EncAll(f, xs + [x]) == EncAll(f, xs) + f(x)
  {
    assert (xs + [x])[..|xs|] == xs;
  }

  lemma {:induction false} EncAllAppend<T>(f: T -> Bytes, a: seq<T>, b: seq<T>)
    ensures EncAll(f, a + b) == EncAll(f, a) + EncAll(f, b)
    decreases |b|
  {
    if b == [] {
      assert a + b == a;
    } else {
      var init, last := b[..|b| - 1], b[|b| - 1];
      assert a + b == (a + init) + [last] && b == init + [last];
      EncAllSnoc(f, a + init, last);
      EncAllAppend(f, a, init);
      Assoc(EncAll(f, a), EncAll(f, init), f(last));
    }
  }

  // A prefix of a sequence takes no more bytes than the whole.
  lemma {:induction false} EncAllPrefix<T>(f: T -> Bytes, xs: seq<T>, i: nat)
    requires i <= |xs|
    ensures |EncAll(f, xs[..i])| <= |EncAll(f, xs)|
  {
    assert xs == xs[..i] + xs[i..];
    EncAllAppend(f, xs[..i], xs[i..]);
  }

  lemma {:induction false} AllRoundTrip<T>(f: T -> Bytes, d: Decoder<T>, xs: seq<T>, rest: Bytes)
    requires forall x | x in xs :: Reads(f, d, x)
    ensures DecAll(d, |xs|, EncAll(f, xs) + rest) == Some((xs, rest))
    decreases |xs|
  {
    if xs == [] {
      assert EncAll(f, xs) + rest == rest;
    } else {
      EncAllFront(f, xs);
      Assoc(f(xs[0]), EncAll(f, xs[1..]), rest);
      assert Reads(f, d, xs[0]);
      AllRoundTrip(f, d, xs[1..], rest);
      assert [xs[0]] + xs[1..] == xs;
    }
  }

  lemma VecRoundTrip<T>(f: T -> Bytes, d: Decoder<T>, xs: seq<T>, rest: Bytes)
    requires IsU32(|xs|) && forall x | x in xs :: Reads(f, d, x)
    ensures DecVec(d, EncVec(f, xs) + rest) == Some((xs, rest))
  {
    Assoc(ULEB(|xs|), EncAll(f, xs), rest);
    IdxRoundTrip(|xs|, EncAll(f, xs) + rest);
    AllRoundTrip(f, d, xs, rest);
  }

  // A section's contents must be one vector and nothing else; an absent section is an empty vector.
  function DecWhole<T>(d: Decoder<T>, section: Option<Bytes>): Option<seq<T>> {
    match section
    case None => Some([])
    case Some(bs) =>
      match DecVec(d, bs)
      case None => None
      case Some((xs, rest)) => if rest == [] then Some(xs) else None
  }

  lemma WholeRoundTrip<T>(f: T -> Bytes, d: Decoder<T>, xs: seq<T>, section: Option<Bytes>)
    requires IsU32(|xs|) && forall x | x in xs :: Reads(f, d, x)
    requires section == if xs == [] then None else Some(EncVec(f, xs))
    ensures DecWhole(d, section) == Some(xs)
  {
    VecRoundTrip(f, d, xs, []);
    assert EncVec(f, xs) + [] == EncVec(f, xs);
  }

  /* Byte vectors. */

  function EncBytes(s: Bytes): Bytes {
    ULEB(|s|) + s
  }

  function DecBytes(bs: Bytes): Option<(Bytes, Bytes)> {
    match DecIdx(bs)
    case None => None
    case Some((n, rest)) => if n <= |rest| then Some((rest[..n], rest[n..])) else None
  }

  lemma BytesRoundTrip(s: Bytes, rest: Bytes)
    requires IsU32(|s|)
    ensures DecBytes(EncBytes(s) + rest) == Some((s, rest))
  {
    Assoc(ULEB(|s|), s, rest);
    IdxRoundTrip(|s|, s + rest);
    assert (s + rest)[..|s|] == s && (s + rest)[|s|..] == rest;
  }

  /* Names (section 5.2.4): byte vectors that are UTF-8. */

  predicate Continues(bs: Bytes, n: nat) {
    n <= |bs| && forall k | 0 <= k < n :: 0x80 <= bs[k] < 0xC0
  }

  // Characters of one to four bytes, each in its shortest form; no surrogates and nothing above 0x10FFFF.
  predicate Utf8(bs: Bytes)
    decreases |bs|
  {
    if bs == [] then true
    else if bs[0] < 0x80 then Utf8(bs[1..])
    else if bs[0] < 0xC2 || bs[0] >= 0xF5 then false
    else if bs[0] < 0xE0 then Continues(bs[1..], 1) && Utf8(bs[2..])
    else if bs[0] < 0xF0 then
      && Continues(bs[1..], 2) && (bs[0] == 0xE0 ==> bs[1] >= 0xA0) && (bs[0] == 0xED ==> bs[1] < 0xA0)
      && Utf8(bs[3..])
    else
      && Continues(bs[1..], 3) && (bs[0] == 0xF0 ==> bs[1] >= 0x90) && (bs[0] == 0xF4 ==> bs[1] < 0x90)
      && Utf8(bs[4..])
  }

  function DecName(bs: Bytes): Option<(Bytes, Bytes)> {
    match DecBytes(bs) case None => None case Some((s, rest)) => if Utf8(s) then Some((s, rest)) else None
  }

  predicate NameOk(s: Bytes) {
    IsU32(|s|) && Utf8(s)
  }

  // The library writes any bytes as a name; they are read back exactly if they are UTF-8.
  lemma NameRoundTrip(s: Bytes, rest: Bytes)
    requires IsU32(|s|)
    ensures DecName(EncBytes(s) + rest) == if Utf8(s) then Some((s, rest)) else None
  {
    BytesRoundTrip(s, rest);
  }

  /* Chunks: an id, a size, and that many bytes. Sections and name subsections are chunks. */

  datatype Chunk = Chunk(id: byte, body: Bytes)

  function EncChunk(c: Chunk): Bytes {
    [c.id] + EncBytes(c.body)
  }

  function EncChunks(cs: seq<Chunk>): Bytes {
    if cs == [] then [] else EncChunks(cs[..|cs| - 1]) + EncChunk(cs[|cs| - 1])
  }

  function DecChunk(bs: Bytes): (r: Option<(Chunk, Bytes)>)
    ensures r.Some? ==> |r.value.1| < |bs|
  {
    if bs == [] then None
    else
      match DecBytes(bs[1..])
      case None => None
      case Some((body, rest)) => Some((Chunk(bs[0], body), rest))
  }

  // Chunks up to the end of the input.
  function DecChunks(bs: Bytes): Option<seq<Chunk>>
    decreases |bs|
  {
    if bs == [] then Some([])
    else
      match DecChunk(bs)
      case None => None
      case Some((c, rest)) => match DecChunks(rest) case None => None case Some(cs) => Some([c] + cs)
  }

  lemma ChunkRoundTrip(c: Chunk, rest: Bytes)
    requires IsU32(|c.body|)
    ensures DecChunk(EncChunk(c) + rest) == Some((c, rest))
  {
    Assoc([c.id], EncBytes(c.body), rest);
    assert ([c.id] + (EncBytes(c.body) + rest))[1..] == EncBytes(c.body) + rest;
    BytesRoundTrip(c.body, rest);
  }

  predicate ChunksFit(cs: seq<Chunk>) {
    forall k | 0 <= k < |cs| :: IsU32(|cs[k].body|)
  }

  lemma {:induction false} EncChunksFront(cs: seq<Chunk>)
    requires cs != []
    ensures EncChunks(cs) == EncChunk(cs[0]) + EncChunks(cs[1..])
    decreases |cs|
  {
    if |cs| > 1 {
      var init := cs[..|cs| - 1];
      EncChunksFront(init);
      assert cs[1..][..|cs| - 2] == init[1..];
      Assoc(EncChunk(cs[0]), EncChunks(init[1..]), EncChunk(cs[|cs| - 1]));
    }
  }

  lemma {:induction false} ChunksRoundTrip(cs: seq<Chunk>)
    requires ChunksFit(cs)
    ensures DecChunks(EncChunks(cs)) == Some(cs)
    decreases |cs|
  {
    if cs != [] {
      EncChunksFront(cs);
      ChunkRoundTrip(cs[0], EncChunks(cs[1..]));
      ChunksRoundTrip(cs[1..]);
      assert [cs[0]] + cs[1..] == cs;
    }
  }

  // Append a chunk if there is anything to put in it.
  function Add(cs: seq<Chunk>, id: byte, present: bool, body: Bytes): seq<Chunk> {
    if present then cs + [Chunk(id, body)] else cs
  }

  // The body of the first chunk with the given id.
  function Lookup(cs: seq<Chunk>, id: byte): Option<Bytes> {
    if cs == [] then None
    else if cs[0].id == id then Some(cs[0].body)
    else Lookup(cs[1..], id)
  }

  lemma {:induction false} LookupSnoc(cs: seq<Chunk>, c: Chunk, id: byte)
    ensures Lookup(cs + [c], id) ==
            if Lookup(cs, id).Some? then Lookup(cs, id) else if c.id == id then Some(c.body) else None
    decreases |cs|
  {
    if cs != [] {
      assert (cs + [c])[1..] == cs[1..] + [c];
      LookupSnoc(cs[1..], c, id);
    } else {
      assert (cs + [c])[1..] == [];
    }
  }

  lemma LookupAdd(cs: seq<Chunk>, n: byte, present: bool, body: Bytes)
    ensures forall id :: Lookup(Add(cs, n, present, body), id) ==
                         if Lookup(cs, id).Some? then Lookup(cs, id)
                         else if present && n == id then Some(body) else None
  {
    forall id
      ensures Lookup(Add(cs, n, present, body), id) ==
              if Lookup(cs, id).Some? then Lookup(cs, id) else if present && n == id then Some(body) else None
    {
      LookupSnoc(cs, Chunk(n, body), id);
    }
  }
}
