/** CAR files, byte for byte: the header chunk, a chunk per block, and the
    varint lengths in front of each. */
module CarFiles {
  import opened Data

  // ---- Lengths ----

  const U64: nat := 0x1_0000_0000_0000_0000

  function Varint(v: nat): seq<byte> {
    if v < 128 then [v as byte] else [(v % 128 + 128) as byte] + Varint(v / 128)
  }

  /** Reads seven bits a byte from the `i`th on: at most ten bytes, and none
      that a shorter spelling would have left out. */
  function ReadVarint(b: seq<byte>, i: nat): Option<(nat, seq<byte>)>
    decreases |b|
  {
    if b == [] then None
    else if b[0] < 128 then if b[0] == 0 && i > 0 then None else Some((b[0] as nat, b[1..]))
    else if i >= 9 then None
    else
      match ReadVarint(b[1..], i + 1)
      case None => None
      case Some(rest) => Some((b[0] as nat - 128 + 128 * rest.0, rest.1))
  }

  function Pow128(n: nat): (p: nat)
    ensures p > 0
  {
    if n == 0 then 1 else 128 * Pow128(n - 1)
  }

  lemma {:induction false} VarintFrom(v: nat, rest: seq<byte>, i: nat)
    requires i <= 9 && v < Pow128(10 - i) && (i > 0 ==> v > 0)
    ensures ReadVarint(Varint(v) + rest, i) == Some((v, rest))
    decreases 10 - i
  {
    var b := Varint(v) + rest;
    if v < 128 {
      assert b[1..] == rest;
    } else {
      assert i < 9 by { assert Pow128(1) == 128; }
      VarintFrom(v / 128, rest, i + 1);
      assert b[1..] == Varint(v / 128) + rest;
    }
  }

  /** Every length a file can hold reads back, whatever follows it. */
  lemma VarintRoundTrip(v: nat, rest: seq<byte>)
    requires v < U64
    ensures ReadVarint(Varint(v) + rest, 0) == Some((v, rest))
  {
    Pow128Ten();
    hide Pow128;
    VarintFrom(v, rest, 0);
  }

  lemma Pow128Ten()
    ensures Pow128(10) > U64
  {
    assert Pow128(5) == 0x8_0000_0000 by { assert Pow128(2) == 16384; }
    assert Pow128(10) == 0x8_0000_0000 * Pow128(5) by { assert Pow128(7) == 16384 * Pow128(5); }
  }

  /** The number some bytes spell, seven bits a byte, lowest first. */
  function Spelt(b: seq<byte>): nat {
    if b == [] then 0 else b[0] as nat % 128 + 128 * Spelt(b[1..])
  }

  /** A whole spelling: the top bit is set on every byte but the last, and the
      last is not 0 unless it is all there is. */
  ghost predicate Whole(b: seq<byte>) {
    && b != [] && (forall i :: 0 <= i < |b| - 1 ==> b[i] >= 128)
    && b[|b| - 1] < 128 && (|b| > 1 ==> b[|b| - 1] != 0)
  }

  lemma {:induction false} VarintSpells(v: nat)
    ensures Whole(Varint(v)) && Spelt(Varint(v)) == v && (v > 0 ==> Varint(v)[|Varint(v)| - 1] != 0)
  {
    if v >= 128 {
      VarintSpells(v / 128);
      var b := Varint(v);
      assert b[1..] == Varint(v / 128);
      assert forall i :: 1 <= i < |b| ==> b[i] == b[1..][i - 1];
    }
  }

  /** What is read is a whole spelling of at most ten bytes, and whatever is
      spelt so is read. */
  lemma ReadsSpelling(b: seq<byte>)
    ensures ReadVarint(b, 0).Some? ==>
              exists n :: 0 < n <= |b| && n <= 10 && Whole(b[..n]) && ReadVarint(b, 0) == Some((Spelt(b[..n]), b[n..]))
    ensures (exists n :: 0 < n <= |b| && n <= 10 && Whole(b[..n])) ==> ReadVarint(b, 0).Some?
  {
    if ReadVarint(b, 0).Some? {
      var n := SpellingRead(b, 0);
      assert Whole(b[..n]);
    }
    if n :| 0 < n <= |b| && n <= 10 && Whole(b[..n]) {
      SpellingIsRead(b, 0, n);
    }
  }

  lemma {:induction false} SpellingRead(b: seq<byte>, i: nat) returns (n: nat)
    requires ReadVarint(b, i).Some?
    ensures 0 < n <= |b| && (n <= 1 || i + n <= 10)
    ensures (forall j :: 0 <= j < n - 1 ==> b[j] >= 128) && b[n - 1] < 128 && (i + n > 1 ==> b[n - 1] != 0)
    ensures ReadVarint(b, i) == Some((Spelt(b[..n]), b[n..]))
    decreases |b|
  {
    n := 1;
    if b[0] >= 128 {
      n := SpellingRead(b[1..], i + 1);
      n := n + 1;
      assert b[1..][..n - 1] == b[..n][1..] && b[1..][n - 1..] == b[n..];
      forall j | 0 <= j < n - 1 ensures b[j] >= 128 { if j > 0 { assert b[j] == b[1..][j - 1]; } }
    } else {
      assert b[..1][1..] == [];
    }
  }

  lemma {:induction false} SpellingIsRead(b: seq<byte>, i: nat, n: nat)
    requires 0 < n <= |b| && i + n <= 10
    requires (forall j :: 0 <= j < n - 1 ==> b[..n][j] >= 128) && b[..n][n - 1] < 128
    requires i + n > 1 ==> b[..n][n - 1] != 0
    ensures ReadVarint(b, i).Some?
    decreases n
  {
    if n > 1 {
      assert b[..n][0] == b[0] && b[1..][..n - 1] == b[..n][1..];
      SpellingIsRead(b[1..], i + 1, n - 1);
    }
  }

  // ---- Chunks ----

  function Chunk(bytes: seq<byte>): seq<byte> {
    Varint(|bytes|) + bytes
  }

  function Truncated(v: nat): nat {
    v % U64
  }

  /** The inverse of `Chunk`, on whatever bytes come. A length spelt past 64
      bits is read modulo that width. */
  function TakeChunk(b: seq<byte>): (r: Result<(seq<byte>, seq<byte>)>)
    ensures r.Ok? ==> |r.value.1| < |b|
  {
    ReadShortens(b, 0);
    match ReadVarint(b, 0)
    case None => Err(MalformedCar("a length that is not a varint"))
    case Some((v, rest)) =>
      var len := Truncated(v);
      if len > |rest| then Err(MalformedCar("a length past the file")) else Ok((rest[..len], rest[len..]))
  }

  /** A chunk is its length, spelt out, and then its bytes. */
  lemma ChunkIs(bytes: seq<byte>)
    ensures exists n :: 0 < n <= |Chunk(bytes)| && Whole(Chunk(bytes)[..n]) && Spelt(Chunk(bytes)[..n]) == |bytes|
                        && Chunk(bytes)[n..] == bytes
  {
    var v := Varint(|bytes|);
    VarintSpells(|bytes|);
    assert Chunk(bytes)[..|v|] == v && Chunk(bytes)[|v|..] == bytes;
  }

  /** Taking one off reads a length, modulo 64 bits, and hands over that many
      bytes and what follows them; or there is no length, or not that much. */
  lemma ChunkTaken(b: seq<byte>)
    ensures TakeChunk(b).Ok? ==>
              exists n :: 0 < n <= |b| && n <= 10 && Whole(b[..n]) && TakenAt(b, n, TakeChunk(b).value)
    ensures TakeChunk(b).Err? ==>
              || (TakeChunk(b) == Err(MalformedCar("a length that is not a varint"))
                  && forall n :: 0 < n <= |b| && n <= 10 ==> !Whole(b[..n]))
              || (TakeChunk(b) == Err(MalformedCar("a length past the file"))
                  && exists n :: 0 < n <= |b| && n <= 10 && Whole(b[..n])
                                 && Truncated(Spelt(b[..n])) > |b| - n)
  {
    hide Whole, Spelt, ReadVarint, TakeChunk, TakenAt;
    ReadsSpelling(b);
    if ReadVarint(b, 0).Some? {
      var n :| 0 < n <= |b| && n <= 10 && Whole(b[..n]) && ReadVarint(b, 0) == Some((Spelt(b[..n]), b[n..]));
      TakesAfter(b, n);
    } else {
      NoLength(b);
    }
  }

  lemma NoLength(b: seq<byte>)
    requires ReadVarint(b, 0).None?
    ensures TakeChunk(b) == Err(MalformedCar("a length that is not a varint"))
  {
    hide ReadVarint;
  }

  lemma TakesAfter(b: seq<byte>, n: nat)
    requires 0 < n <= |b| && ReadVarint(b, 0) == Some((Spelt(b[..n]), b[n..]))
    ensures if Truncated(Spelt(b[..n])) > |b| - n then
              TakeChunk(b) == Err(MalformedCar("a length past the file"))
            else TakeChunk(b).Ok? && TakenAt(b, n, TakeChunk(b).value)
  {
    hide ReadVarint, Spelt, TakeChunk, Truncated;
    TakeIs(b, Spelt(b[..n]), b[n..]);
    SliceAfter(b, n, Truncated(Spelt(b[..n])));
  }

  lemma SliceAfter(b: seq<byte>, n: nat, len: nat)
    requires n <= |b|
    ensures n + len <= |b| ==> b[n..][..len] == b[n..n + len] && b[n..][len..] == b[n + len..]
  {
  }

  lemma TakeIs(b: seq<byte>, v: nat, rest: seq<byte>)
    requires ReadVarint(b, 0) == Some((v, rest))
    ensures TakeChunk(b) == if Truncated(v) > |rest| then Err(MalformedCar("a length past the file"))
                            else Ok((rest[..Truncated(v)], rest[Truncated(v)..]))
  {
    hide ReadVarint, Truncated;
  }

  ghost predicate TakenAt(b: seq<byte>, n: nat, taken: (seq<byte>, seq<byte>))
    requires n <= |b|
  {
    var len := Truncated(Spelt(b[..n]));
    n + len <= |b| && taken.0 == b[n..n + len] && taken.1 == b[n + len..]
  }

  lemma ReadShortens(b: seq<byte>, i: nat)
    ensures ReadVarint(b, i).Some? ==> |ReadVarint(b, i).value.1| < |b|
    decreases |b|
  {
    if b != [] { ReadShortens(b[1..], i + 1); }
  }

  lemma ChunkRoundTrip(bytes: seq<byte>, rest: seq<byte>)
    requires |bytes| < U64
    ensures TakeChunk(Chunk(bytes) + rest) == Ok((bytes, rest))
  {
    VarintRoundTrip(|bytes|, bytes + rest);
    assert Chunk(bytes) + rest == Varint(|bytes|) + (bytes + rest);
    assert (bytes + rest)[..|bytes|] == bytes && (bytes + rest)[|bytes|..] == rest;
  }

  // ---- What the encoding library gives ----

  /** CIDs, headers and blocks as bytes, left arbitrary but for `Faithful`. */
  const CidBytes: Cid -> seq<byte>
  const ReadCid: seq<byte> -> Option<(Cid, seq<byte>)>
  const HeaderBytes: seq<Cid> -> seq<byte>
  const ReadHeader: seq<byte> -> Option<(nat, seq<Cid>)>
  const BytesOf: Block -> seq<byte>

  /** A CID reads back from in front of anything, and a version 1 header reads
      back. */
  ghost predicate Faithful() {
    && (forall c, rest :: ReadCid(CidBytes(c) + rest) == Some((c, rest)))
    && (forall roots :: ReadHeader(HeaderBytes(roots)) == Some((1, roots)))
  }

  /** Whether some bytes are the ones a CID is the hash of. */
  predicate HashesTo(c: Cid, bytes: seq<byte>) {
    bytes == BytesOf(BlockOf(c))
  }

  type BlockMap = map<Cid, seq<byte>>

  datatype Framed = Framed(cid: Cid, bytes: seq<byte>) {
    /** What one block takes up in a file, behind its length. */
    function Bytes(): seq<byte> {
      CidBytes(cid) + bytes
    }
  }

  // ---- Writing ----

  function HeaderOf(roots: seq<Cid>): seq<byte> {
    Chunk(HeaderBytes(roots))
  }

  function FramesOf(blocks: seq<Framed>): seq<byte> {
    if blocks == [] then [] else FramesOf(blocks[..|blocks| - 1]) + Chunk(blocks[|blocks| - 1].Bytes())
  }

  /** Extends a file by one frame. */
  method Push(car: seq<byte>, cid: Cid, bytes: seq<byte>, ghost roots: seq<Cid>, ghost blocks: seq<Framed>)
    returns (car': seq<byte>)
    requires car == HeaderOf(roots) + FramesOf(blocks)
    ensures car' == HeaderOf(roots) + FramesOf(blocks + [Framed(cid, bytes)])
  {
    var framed := CidBytes(cid) + bytes;
    car' := car + Varint(|framed|) + framed;
    ghost var all := blocks + [Framed(cid, bytes)];
    assert all[..|blocks|] == blocks;
    assert car' == HeaderOf(roots) + (FramesOf(blocks) + Chunk(framed));
  }

  /** The blocks a list of frames holds: a CID framed twice is the last of them. */
  ghost function MapOf(blocks: seq<Framed>): BlockMap {
    if blocks == [] then map[]
    else MapOf(blocks[..|blocks| - 1])[blocks[|blocks| - 1].cid := blocks[|blocks| - 1].bytes]
  }

  /** Blocks a file can carry and be read back: each is what its CID is the
      hash of, and no length is past what a machine can hold. */
  ghost predicate Carries(roots: seq<Cid>, blocks: BlockMap) {
    && |HeaderBytes(roots)| < U64
    && forall c :: c in blocks ==> HashesTo(c, blocks[c]) && |Framed(c, blocks[c]).Bytes()| < U64
  }

  /** Writes every block under some roots, in an order of the writer's own. */
  method Rooted(roots: seq<Cid>, blocks: BlockMap) returns (car: seq<byte>, ghost order: seq<Framed>)
    ensures car == HeaderOf(roots) + FramesOf(order)
    ensures MapOf(order) == blocks && |order| == |blocks|
    ensures forall i :: 0 <= i < |order| ==> order[i].cid in blocks && blocks[order[i].cid] == order[i].bytes
    ensures Faithful() && Carries(roots, blocks) ==> Opened(car) == Ok((roots, blocks))
  {
    hide HeaderOf, FramesOf, MapOf, Opened, Faithful, Carries;
    car, order := HeaderOf(roots), [];
    NoFrames(roots);
    var todo := blocks.Keys;
    while todo != {}
      invariant todo <= blocks.Keys && MapOf(order) == blocks - todo && |order| + |todo| == |blocks.Keys|
      invariant car == HeaderOf(roots) + FramesOf(order)
      invariant forall i :: 0 <= i < |order| ==> order[i].cid in blocks && blocks[order[i].cid] == order[i].bytes
      decreases |todo|
    {
      var c :| c in todo;
      car := Push(car, c, blocks[c], roots, order);
      MapNext(order, Framed(c, blocks[c]));
      order := order + [Framed(c, blocks[c])];
      assert (blocks - todo)[c := blocks[c]] == blocks - (todo - {c});
      todo := todo - {c};
    }
    assert blocks - todo == blocks;
    SizeOf(blocks);
    if Faithful() && Carries(roots, blocks) { OpensMap(roots, blocks, order); }
  }

  lemma NoFrames(roots: seq<Cid>)
    ensures HeaderOf(roots) == HeaderOf(roots) + FramesOf([]) && MapOf([]) == map[]
  {
  }

  lemma MapNext(order: seq<Framed>, f: Framed)
    ensures MapOf(order + [f]) == MapOf(order)[f.cid := f.bytes]
  {
    assert (order + [f])[..|order|] == order;
  }

  lemma SizeOf(blocks: BlockMap)
    ensures |blocks| == |blocks.Keys|
  {
  }

  // ---- Reading ----

  /** The blocks left in a file, over those read already. */
  function ReadFrames(rest: seq<byte>, blocks: BlockMap): Result<BlockMap>
    decreases |rest|
  {
    if rest == [] then Ok(blocks)
    else
      match TakeChunk(rest)
      case Err(e) => Err(e)
      case Ok((chunk, next)) =>
        match ReadCid(chunk)
        case None => Err(MalformedCar("a block under something that is not a CID"))
        case Some((c, bytes)) =>
          if !HashesTo(c, bytes) then Err(WrongCid(c)) else ReadFrames(next, blocks[c := bytes])
  }

  /** A file as a whole: its header, and then its blocks. */
  function Opened(car: seq<byte>): Result<(seq<Cid>, BlockMap)> {
    match TakeChunk(car)
    case Err(e) => Err(e)
    case Ok((header, rest)) =>
      match ReadHeader(header)
      case None => Err(Decode)
      case Some((version, roots)) =>
        if version != 1 then Err(MalformedCar("not a version 1 file"))
        else
          match ReadFrames(rest, map[])
          case Err(e) => Err(e)
          case Ok(blocks) => Ok((roots, blocks))
  }

  /** A file's roots and its blocks. Whatever bytes arrive, a block that comes
      back is one its CID is the hash of. */
  method ReadRoots(car: seq<byte>) returns (r: Result<(seq<Cid>, BlockMap)>)
    ensures r.Ok? ==> forall c :: c in r.value.1 ==> HashesTo(c, r.value.1[c])
    ensures r == Opened(car)
    ensures r.Ok? ==> TakeChunk(car).Ok? && ReadHeader(TakeChunk(car).value.0) == Some((1, r.value.0))
    ensures TakeChunk(car).Ok? && ReadHeader(TakeChunk(car).value.0).Some?
            && ReadHeader(TakeChunk(car).value.0).value.0 != 1 ==>
              r == Err(MalformedCar("not a version 1 file"))
  {
    var opening := TakeChunk(car);
    if opening.Err? { return Err(opening.error); }
    var header := ReadHeader(opening.value.0);
    if header.None? { return Err(Decode); }
    if header.value.0 != 1 { return Err(MalformedCar("not a version 1 file")); }
    var blocks, rest := map[], opening.value.1;
    while rest != []
      invariant ReadFrames(rest, blocks) == ReadFrames(opening.value.1, map[])
      invariant forall c :: c in blocks ==> HashesTo(c, blocks[c])
      decreases |rest|
    {
      var chunk := TakeChunk(rest);
      if chunk.Err? { return Err(chunk.error); }
      rest := chunk.value.1;
      var read := ReadCid(chunk.value.0);
      if read.None? { return Err(MalformedCar("a block under something that is not a CID")); }
      if !HashesTo(read.value.0, read.value.1) { return Err(WrongCid(read.value.0)); }
      blocks := blocks[read.value.0 := read.value.1];
    }
    r := Ok((header.value.1, blocks));
  }

  /** A file naming one root, which it holds. */
  method Read(car: seq<byte>) returns (r: Result<(Cid, BlockMap)>)
    ensures r.Ok? ==> r.value.0 in r.value.1 && forall c :: c in r.value.1 ==> HashesTo(c, r.value.1[c])
    ensures forall roots, order ::
              car == HeaderOf(roots) + FramesOf(order) && Fits(roots, order) && Hashed(order) && Faithful() ==>
                if |roots| != 1 then r == Err(MalformedCar("not exactly one root"))
                else if roots[0] !in MapOf(order) then r == Err(MissingBlock(roots[0]))
                else r == Ok((roots[0], MapOf(order)))
  {
    var all := ReadRoots(car);
    forall roots, order | car == HeaderOf(roots) + FramesOf(order) && Fits(roots, order) && Hashed(order) && Faithful()
      ensures all == Ok((roots, MapOf(order)))
    {
      OpensAsWritten(roots, order);
    }
    if all.Err? { return Err(all.error); }
    var (roots, blocks) := all.value;
    if |roots| != 1 { return Err(MalformedCar("not exactly one root")); }
    if roots[0] !in blocks { return Err(MissingBlock(roots[0])); }
    r := Ok((roots[0], blocks));
  }

  // ---- Round trip ----

  /** Lengths a machine can hold. */
  ghost predicate Fits(roots: seq<Cid>, order: seq<Framed>) {
    && |HeaderBytes(roots)| < U64
    && forall i :: 0 <= i < |order| ==> |order[i].Bytes()| < U64
  }

  /** Every block is the one its CID is the hash of. */
  ghost predicate Hashed(order: seq<Framed>) {
    forall i :: 0 <= i < |order| ==> HashesTo(order[i].cid, order[i].bytes)
  }

  lemma FrameReads(f: Framed, rest: seq<byte>, blocks: BlockMap)
    requires Faithful() && |f.Bytes()| < U64 && HashesTo(f.cid, f.bytes)
    ensures ReadFrames(Chunk(f.Bytes()) + rest, blocks) == ReadFrames(rest, blocks[f.cid := f.bytes])
  {
    ChunkRoundTrip(f.Bytes(), rest);
    assert Chunk(f.Bytes()) != [];
  }

  /** Reading a run of frames collects them, and goes on with the rest. */
  lemma {:induction false} FramesRead(order: seq<Framed>, rest: seq<byte>)
    requires Faithful() && Hashed(order) && forall i :: 0 <= i < |order| ==> |order[i].Bytes()| < U64
    ensures ReadFrames(FramesOf(order) + rest, map[]) == ReadFrames(rest, MapOf(order))
  {
    hide Faithful, HashesTo, ReadFrames, Chunk;
    if order == [] {
      assert FramesOf(order) + rest == rest;
    } else {
      var n := |order| - 1;
      var last := Chunk(order[n].Bytes());
      FramesRead(order[..n], last + rest);
      assert FramesOf(order) + rest == FramesOf(order[..n]) + (last + rest);
      FrameReads(order[n], rest, MapOf(order[..n]));
    }
  }

  /** Where reading stops on a file with a false block, and with which error:
      at the first such block, by its CID. */
  lemma WrongBlockRefused(order: seq<Framed>, i: nat)
    requires Faithful() && i < |order| && Hashed(order[..i]) && !HashesTo(order[i].cid, order[i].bytes)
    requires forall j :: 0 <= j < |order| ==> |order[j].Bytes()| < U64
    ensures ReadFrames(FramesOf(order), map[]) == Err(WrongCid(order[i].cid))
  {
    hide HashesTo, Hashed;
    var rest := FramesSplit(order, i);
    FramesRead(order[..i], Chunk(order[i].Bytes()) + rest);
    ChunkRoundTrip(order[i].Bytes(), rest);
  }

  lemma {:induction false} FramesSplit(order: seq<Framed>, i: nat) returns (rest: seq<byte>)
    requires i < |order|
    ensures FramesOf(order) == FramesOf(order[..i]) + (Chunk(order[i].Bytes()) + rest)
  {
    hide Chunk;
    var n := |order| - 1;
    if i == n {
      rest := [];
      assert Chunk(order[i].Bytes()) + rest == Chunk(order[i].Bytes());
    } else {
      var more := FramesSplit(order[..n], i);
      assert order[..n][..i] == order[..i];
      rest := more + Chunk(order[n].Bytes());
    }
  }

  lemma OpensMap(roots: seq<Cid>, blocks: BlockMap, order: seq<Framed>)
    requires Faithful() && Carries(roots, blocks) && MapOf(order) == blocks
    requires forall i :: 0 <= i < |order| ==> order[i].cid in blocks && blocks[order[i].cid] == order[i].bytes
    ensures Opened(HeaderOf(roots) + FramesOf(order)) == Ok((roots, blocks))
  {
    hide HashesTo, HeaderOf, FramesOf, MapOf, TakeChunk, ReadFrames;
    assert Fits(roots, order) && Hashed(order) by {
      forall i | 0 <= i < |order| ensures HashesTo(order[i].cid, order[i].bytes) && |order[i].Bytes()| < U64 {
        assert order[i] == Framed(order[i].cid, blocks[order[i].cid]);
      }
    }
    OpensAsWritten(roots, order);
  }

  /** Each part of a written file, as the reader finds it. */
  lemma OpensAsWritten(roots: seq<Cid>, order: seq<Framed>)
    requires Faithful() && Fits(roots, order) && Hashed(order)
    ensures var car := HeaderOf(roots) + FramesOf(order);
            && TakeChunk(car) == Ok((HeaderBytes(roots), FramesOf(order)))
            && ReadHeader(HeaderBytes(roots)) == Some((1, roots))
            && ReadFrames(FramesOf(order), map[]) == Ok(MapOf(order))
  {
    ChunkRoundTrip(HeaderBytes(roots), FramesOf(order));
    FramesRead(order, []);
    assert FramesOf(order) + [] == FramesOf(order);
  }
}
