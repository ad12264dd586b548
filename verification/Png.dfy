/**
 Checking icon files before they are decoded (src/icon_loader/file.rs): the walk over the
 chunks of a PNG, its checksum, and the choice of an image from an ICO.

 A PNG is a signature and a list of chunks, as sections 5.2, 5.3 and 5.5 of the W3C PNG
 Specification (ISO/IEC 15948) lay them out.
 */
module Png {
  import opened Arithmetic
  import opened Wrappers

  type Byte = x: int | 0 <= x < 256
  type Bytes = seq<Byte>

  const MAX_DIMENSION: nat := 1024
  const U32_LIMIT: nat := 0x1_0000_0000

  type U32 = x: int | 0 <= x < 0x1_0000_0000
  const SIGNATURE: Bytes := [0x89, 0x50, 0x4E, 0x47, 0x0D, 0x0A, 0x1A, 0x0A]
  const IHDR: Bytes := [0x49, 0x48, 0x44, 0x52]
  const IDAT: Bytes := [0x49, 0x44, 0x41, 0x54]
  const IEND: Bytes := [0x49, 0x45, 0x4E, 0x44]

  // ---- Checksums ---------------------------------------------------------

  /** A register that takes in a byte and then shifts, bit by bit. */
  datatype Register<!W> = Register(mix: (W, bv8) -> W, step: W -> W)

  /** One bit of the division by the CRC polynomial. */
  function Shift(crc: bv32): bv32 {
    (crc >> 1) ^ (0xEDB88320 & (0 - (crc & 1)))
  }

  function Mix(crc: bv32, b: bv8): bv32 {
    crc ^ (b as bv32)
  }

  const CRC: Register<bv32> := Register(Mix, Shift)
  const BITS: nat := 8

  function Steps<W>(r: Register<W>, w: W, k: nat): W {
    if k == 0 then w else r.step(Steps(r, w, k - 1))
  }

  function Fold<W>(r: Register<W>, w: W, bytes: seq<bv8>, bits: nat, k: nat): W
    requires k <= |bytes|
  {
    if k == 0 then w else Steps(r, r.mix(Fold(r, w, bytes, bits, k - 1), bytes[k - 1]), bits)
  }

  function Checksum(bytes: seq<bv8>): bv32 {
    !Fold(CRC, 0xFFFF_FFFF, bytes, BITS, |bytes|)
  }

  function Octets(bytes: Bytes): seq<bv8> {
    seq(|bytes|, i requires 0 <= i < |bytes| => bytes[i] as bv8)
  }

  /** The checksum as a number, as it stands in a file. */
  function Crc(bytes: Bytes): U32 {
    var crc := Checksum(Octets(bytes));
    WordIsSmall(crc);
    crc as int
  }

  lemma WordIsSmall(w: bv32)
    ensures 0 <= w as int < U32_LIMIT
  {
  }

  /** The two loops of `crc32`. */
  method FoldBytes<W>(r: Register<W>, start: W, bytes: seq<bv8>, bits: nat) returns (crc: W)
    ensures crc == Fold(r, start, bytes, bits, |bytes|)
  {
    crc := start;
    var i := 0;
    while i < |bytes|
      invariant i <= |bytes| && crc == Fold(r, start, bytes, bits, i)
    {
      crc := r.mix(crc, bytes[i]);
      ghost var mixed := crc;
      var bit := 0;
      while bit < bits
        invariant 0 <= bit <= bits && crc == Steps(r, mixed, bit)
      {
        crc := r.step(crc);
        bit := bit + 1;
      }
      i := i + 1;
    }
  }

  /** Different contents of the register, or different bytes, are never confused by one operation. */
  ghost predicate TellsApart<W(!new)>(r: Register<W>) {
    && (forall v: W, w: W :: v != w ==> r.step(v) != r.step(w))
    && (forall v: W, w: W, b: bv8 :: v != w ==> r.mix(v, b) != r.mix(w, b))
    && (forall w: W, b: bv8, c: bv8 :: b != c ==> r.mix(w, b) != r.mix(w, c))
  }

  lemma {:induction false} StepsTellApart<W>(r: Register<W>, v: W, w: W, k: nat)
    requires v != w && forall v: W, w: W :: v != w ==> r.step(v) != r.step(w)
    ensures Steps(r, v, k) != Steps(r, w, k)
  {
    if k > 0 {
      StepsTellApart(r, v, w, k - 1);
    }
  }

  lemma {:induction false} FoldTellsApart<W(!new)>(r: Register<W>, w: W, xs: seq<bv8>, ys: seq<bv8>, i: nat, bits: nat, k: nat)
    requires TellsApart(r) && k <= |xs| == |ys| && i < |xs| && xs[i] != ys[i]
    requires forall j :: 0 <= j < |xs| && j != i ==> xs[j] == ys[j]
    ensures if i < k then Fold(r, w, xs, bits, k) != Fold(r, w, ys, bits, k)
            else Fold(r, w, xs, bits, k) == Fold(r, w, ys, bits, k)
  {
    if k > 0 {
      FoldTellsApart(r, w, xs, ys, i, bits, k - 1);
      if i < k {
        StepsTellApart(r, r.mix(Fold(r, w, xs, bits, k - 1), xs[k - 1]), r.mix(Fold(r, w, ys, bits, k - 1), ys[k - 1]), bits);
      }
    }
  }

  lemma ShiftTellsApart(a: bv32, b: bv32)
    requires a != b
    ensures Shift(a) != Shift(b)
  {
    assert Shift(a) >> 31 == a & 1;
    assert Shift(b) >> 31 == b & 1;
  }

  lemma WidenTellsApart(x: bv8, y: bv8)
    requires x != y
    ensures (x as bv32) != (y as bv32)
  {
  }

  lemma XorTellsApart(a: bv32, b: bv32, c: bv32)
    requires a != b
    ensures a ^ c != b ^ c && c ^ a != c ^ b
  {
  }

  lemma MixTellsApart(v: bv32, w: bv32, b: bv8)
    requires v != w
    ensures Mix(v, b) != Mix(w, b)
  {
    XorTellsApart(v, w, b as bv32);
  }

  lemma MixTellsBytesApart(w: bv32, b: bv8, c: bv8)
    requires b != c
    ensures Mix(w, b) != Mix(w, c)
  {
    WidenTellsApart(b, c);
    XorTellsApart(b as bv32, c as bv32, w);
  }

  lemma CrcTellsApart()
    ensures TellsApart(CRC)
  {
    forall v: bv32, w: bv32 | v != w
      ensures Shift(v) != Shift(w)
    {
      ShiftTellsApart(v, w);
    }
    forall v: bv32, w: bv32, b: bv8 | v != w
      ensures Mix(v, b) != Mix(w, b)
    {
      MixTellsApart(v, w, b);
    }
    forall w: bv32, b: bv8, c: bv8 | b != c
      ensures Mix(w, b) != Mix(w, c)
    {
      MixTellsBytesApart(w, b, c);
    }
  }

  /** The checksum detects the corruption of any one byte, however long the data. */
  lemma CrcDetectsOneByte(xs: seq<bv8>, ys: seq<bv8>, i: nat)
    requires |xs| == |ys| && i < |xs| && xs[i] != ys[i]
    requires forall j :: 0 <= j < |xs| && j != i ==> xs[j] == ys[j]
    ensures Checksum(xs) != Checksum(ys)
  {
    CrcTellsApart();
    FoldTellsApart(CRC, 0xFFFF_FFFF, xs, ys, i, BITS, |xs|);
    NotTellsApart(Fold(CRC, 0xFFFF_FFFF, xs, BITS, |xs|), Fold(CRC, 0xFFFF_FFFF, ys, BITS, |ys|));
  }

  lemma NotTellsApart(a: bv32, b: bv32)
    requires a != b
    ensures !a != !b
  {
  }

  // ---- Numbers -----------------------------------------------------------

  function Big(b: Bytes): (n: nat)
    requires |b| == 4
    ensures n < U32_LIMIT
  {
    (b[0] as int) * 0x100_0000 + (b[1] as int) * 0x1_0000 + (b[2] as int) * 0x100 + b[3] as int
  }

  function BigEndian(n: nat): (b: Bytes)
    requires n < U32_LIMIT
    ensures |b| == 4 && Big(b) == n
  {
    [n / 256 / 256 / 256, n / 256 / 256 % 256, n / 256 % 256, n % 256]
  }

  lemma BigEndianOfBig(b: Bytes)
    requires |b| == 4
    ensures BigEndian(Big(b)) == b
  {
    var b0: int, b1: int, b2: int, b3: int := b[0], b[1], b[2], b[3];
    DivModIs(Big(b), b0 * 256 * 256 + b1 * 256 + b2, b3, 256);
    DivModIs(b0 * 256 * 256 + b1 * 256 + b2, b0 * 256 + b1, b2, 256);
    DivModIs(b0 * 256 + b1, b0, b1, 256);
  }

  // ---- PNG ---------------------------------------------------------------

  /** How chunks are summed; a PNG uses `Crc`, but the walk does not depend on it. */
  type Sum = Bytes -> U32

  /** A chunk: its type and its data; length and checksum follow from them. */
  datatype Chunk = Chunk(kind: Bytes, data: Bytes)

  predicate IsChunk(c: Chunk) {
    |c.kind| == 4 && |c.data| < U32_LIMIT
  }

  function WriteChunk(sum: Sum, c: Chunk): (b: Bytes)
    requires IsChunk(c)
    ensures |b| == |c.data| + 12
  {
    BigEndian(|c.data|) + c.kind + c.data + BigEndian(sum(c.kind + c.data))
  }

  predicate AreChunks(chunks: seq<Chunk>) {
    forall i :: 0 <= i < |chunks| ==> IsChunk(chunks[i])
  }

  function Write(sum: Sum, chunks: seq<Chunk>): Bytes
    requires AreChunks(chunks)
  {
    if chunks == [] then [] else WriteChunk(sum, chunks[0]) + Write(sum, chunks[1..])
  }

  predicate HasKind(chunks: seq<Chunk>, kind: Bytes) {
    exists i :: 0 <= i < |chunks| && chunks[i].kind == kind
  }

  /** The list ends in its first IEND. */
  ghost predicate EndsAtFirst(chunks: seq<Chunk>) {
    && chunks != [] && chunks[|chunks| - 1] == Chunk(IEND, [])
    && (forall i :: 0 <= i < |chunks| - 1 ==> chunks[i].kind != IEND)
  }

  /** The list ends in its first IEND, which is empty, and has an IDAT unless one was seen before. */
  ghost predicate EndsWell(chunks: seq<Chunk>, seen: bool) {
    AreChunks(chunks) && EndsAtFirst(chunks) && (seen || HasKind(chunks, IDAT))
  }

  /** The walk over the chunks from `offset` on. */
  function Walk(sum: Sum, bytes: Bytes, offset: nat, seen: bool): bool
    requires offset <= |bytes|
    decreases |bytes| - offset
  {
    if offset + 4 > |bytes| then false
    else
      var length := Big(bytes[offset..offset + 4]);
      var end := offset + length + 12;
      if end > |bytes| then false
      else
        var chunk := bytes[offset + 4..end - 4];
        if sum(chunk) != Big(bytes[end - 4..end]) then false
        else
          var kind := chunk[..4];
          var seen' := seen || kind == IDAT;
          if kind == IEND then length == 0 && seen' && end == |bytes| else Walk(sum, bytes, end, seen')
  }

  /** `png_dimensions`. */
  function Dimensions(sum: Sum, bytes: Bytes): Option<(nat, nat)> {
    if |bytes| < 29 || bytes[..8] != SIGNATURE || Big(bytes[8..12]) != 13 || bytes[12..16] != IHDR then None
    else
      var width, height := Big(bytes[16..20]), Big(bytes[20..24]);
      if !(1 <= width <= MAX_DIMENSION) || !(1 <= height <= MAX_DIMENSION) || bytes[26..28] != [0, 0] || bytes[28] > 1
      then None
      else if Walk(sum, bytes, 8, false) then Some((width, height)) else None
  }

  /** `png_dimensions` as the code runs it, chunk after chunk. */
  method PngDimensions(sum: Sum, bytes: Bytes) returns (r: Option<(nat, nat)>)
    ensures r == Dimensions(sum, bytes)
  {
    if |bytes| < 29 || bytes[..8] != SIGNATURE || Big(bytes[8..12]) != 13 || bytes[12..16] != IHDR {
      return None;
    }
    var width, height := Big(bytes[16..20]), Big(bytes[20..24]);
    if !(1 <= width <= MAX_DIMENSION) || !(1 <= height <= MAX_DIMENSION) || bytes[26..28] != [0, 0] || bytes[28] > 1 {
      return None;
    }
    var offset, imageData := 8, false;
    while true
      invariant 8 <= offset <= |bytes|
      invariant Walk(sum, bytes, offset, imageData) == Walk(sum, bytes, 8, false)
      decreases |bytes| - offset
    {
      if offset + 4 > |bytes| {
        return None;
      }
      var length := Big(bytes[offset..offset + 4]);
      var end := offset + length + 12;
      if end > |bytes| {
        return None;
      }
      var chunk := bytes[offset + 4..end - 4];
      if sum(chunk) != Big(bytes[end - 4..end]) {
        return None;
      }
      var kind := chunk[..4];
      if kind == IDAT {
        imageData := true;
      }
      if kind == IEND {
        return if length == 0 && imageData && end == |bytes| then Some((width, height)) else None;
      }
      offset := end;
    }
  }

  // ---- The walk reads exactly what is written ----------------------------

  /** The chunk at `offset`, once its length and checksum are in order. */
  lemma ChunkAt(sum: Sum, bytes: Bytes, offset: nat) returns (c: Chunk)
    requires offset + 4 <= |bytes|
    requires offset + Big(bytes[offset..offset + 4]) + 12 <= |bytes|
    requires var end := offset + Big(bytes[offset..offset + 4]) + 12;
      sum(bytes[offset + 4..end - 4]) == Big(bytes[end - 4..end])
    ensures IsChunk(c) && |c.data| == Big(bytes[offset..offset + 4])
    ensures c.kind == bytes[offset + 4..offset + 8]
    ensures bytes[offset..offset + |c.data| + 12] == WriteChunk(sum, c)
  {
    var length := Big(bytes[offset..offset + 4]);
    var end := offset + length + 12;
    c := Chunk(bytes[offset + 4..offset + 8], bytes[offset + 8..end - 4]);
    assert c.kind + c.data == bytes[offset + 4..end - 4];
    BigEndianOfBig(bytes[offset..offset + 4]);
    BigEndianOfBig(bytes[end - 4..end]);
  }

  lemma OnlyChunk(sum: Sum, c: Chunk, seen: bool)
    requires IsChunk(c)
    ensures Write(sum, [c]) == WriteChunk(sum, c)
    ensures EndsWell([c], seen) <==> c == Chunk(IEND, []) && seen
  {
    assert Write(sum, []) == [];
    assert [c][1..] == [];
    assert HasKind([c], IDAT) ==> c.kind == IDAT;
    assert IEND[1] != IDAT[1];
  }

  lemma WriteMore(sum: Sum, c: Chunk, rest: seq<Chunk>)
    requires IsChunk(c) && AreChunks(rest)
    ensures AreChunks([c] + rest) && Write(sum, [c] + rest) == WriteChunk(sum, c) + Write(sum, rest)
  {
    assert ([c] + rest)[1..] == rest;
  }

  lemma KindsOf(c: Chunk, rest: seq<Chunk>, kind: Bytes)
    ensures HasKind([c] + rest, kind) <==> c.kind == kind || HasKind(rest, kind)
  {
    var all := [c] + rest;
    if HasKind(rest, kind) {
      var i :| 0 <= i < |rest| && rest[i].kind == kind;
      assert all[i + 1].kind == kind;
    }
    if HasKind(all, kind) && c.kind != kind {
      var i :| 0 <= i < |all| && all[i].kind == kind;
      assert rest[i - 1].kind == kind;
    }
    if c.kind == kind {
      assert all[0].kind == kind;
    }
  }

  lemma PrependEndsAtFirst(c: Chunk, rest: seq<Chunk>)
    requires c.kind != IEND
    ensures EndsAtFirst([c] + rest) <==> EndsAtFirst(rest)
  {
    var all := [c] + rest;
    assert forall i :: 0 <= i < |rest| ==> rest[i] == all[i + 1];
    assert forall i :: 0 < i < |all| ==> all[i] == rest[i - 1];
  }

  lemma PrependEndsWell(c: Chunk, rest: seq<Chunk>, seen: bool)
    requires IsChunk(c) && c.kind != IEND
    ensures EndsWell([c] + rest, seen) <==> EndsWell(rest, seen || c.kind == IDAT)
  {
    PrependEndsAtFirst(c, rest);
    KindsOf(c, rest, IDAT);
    assert AreChunks([c] + rest) <==> AreChunks(rest) by {
      assert forall i :: 0 <= i < |rest| ==> rest[i] == ([c] + rest)[i + 1];
    }
  }

  /** Reading back the first of a list of written chunks. */
  lemma FirstChunk(sum: Sum, bytes: Bytes, offset: nat, c: Chunk, rest: Bytes)
    requires offset <= |bytes| && IsChunk(c) && bytes[offset..] == WriteChunk(sum, c) + rest
    ensures var end := offset + |c.data| + 12;
      && end <= |bytes| && Big(bytes[offset..offset + 4]) == |c.data|
      && bytes[offset + 4..end - 4] == c.kind + c.data && Big(bytes[end - 4..end]) == sum(c.kind + c.data)
      && bytes[end..] == rest
  {
    var end, w := offset + |c.data| + 12, WriteChunk(sum, c);
    assert |bytes[offset..]| == |w| + |rest|;
    forall i | 0 <= i < |w|
      ensures bytes[offset + i] == w[i]
    {
      assert bytes[offset..][i] == (w + rest)[i];
    }
    forall i | 0 <= i < |rest|
      ensures bytes[end + i] == rest[i]
    {
      assert bytes[offset..][|w| + i] == (w + rest)[|w| + i];
    }
    assert bytes[offset..offset + 4] == BigEndian(|c.data|);
    assert bytes[offset + 4..end - 4] == c.kind + c.data;
    assert bytes[end - 4..end] == BigEndian(sum(c.kind + c.data));
    assert bytes[end..] == rest;
  }

  /** One turn of the walk, over a chunk that is in order. */
  lemma WalkOver(sum: Sum, bytes: Bytes, offset: nat, seen: bool, c: Chunk, rest: Bytes)
    requires offset <= |bytes| && IsChunk(c) && bytes[offset..] == WriteChunk(sum, c) + rest
    ensures offset + |c.data| + 12 <= |bytes| && bytes[offset + |c.data| + 12..] == rest
    ensures Walk(sum, bytes, offset, seen)
         == if c.kind == IEND then c.data == [] && (seen || c.kind == IDAT) && rest == []
            else Walk(sum, bytes, offset + |c.data| + 12, seen || c.kind == IDAT)
  {
    FirstChunk(sum, bytes, offset, c, rest);
    assert (c.kind + c.data)[..4] == c.kind;
  }

  lemma {:induction false} WalkFindsChunks(sum: Sum, bytes: Bytes, offset: nat, seen: bool) returns (chunks: seq<Chunk>)
    requires offset <= |bytes| && Walk(sum, bytes, offset, seen)
    ensures EndsWell(chunks, seen) && bytes[offset..] == Write(sum, chunks)
    decreases |bytes| - offset
  {
    var c := ChunkAt(sum, bytes, offset);
    var end := offset + |c.data| + 12;
    assert bytes[offset..] == WriteChunk(sum, c) + bytes[end..];
    WalkOver(sum, bytes, offset, seen, c, bytes[end..]);
    if c.kind == IEND {
      chunks := [c];
      assert c == Chunk(IEND, []);
      OnlyChunk(sum, c, seen);
    } else {
      var rest := WalkFindsChunks(sum, bytes, end, seen || c.kind == IDAT);
      chunks := [c] + rest;
      PrependEndsWell(c, rest, seen);
      WriteMore(sum, c, rest);
    }
  }

  lemma LastWritten(sum: Sum, bytes: Bytes, offset: nat, seen: bool, chunks: seq<Chunk>)
    requires offset <= |bytes| && EndsWell(chunks, seen) && |chunks| == 1 && bytes[offset..] == Write(sum, chunks)
    ensures Walk(sum, bytes, offset, seen)
  {
    var c := chunks[0];
    assert chunks == [c];
    OnlyChunk(sum, c, seen);
    assert WriteChunk(sum, c) + [] == WriteChunk(sum, c);
    WalkOver(sum, bytes, offset, seen, c, []);
  }

  lemma HeadAndRest(c: Chunk, rest: seq<Chunk>, seen: bool)
    requires rest != [] && EndsWell([c] + rest, seen)
    ensures IsChunk(c) && c.kind != IEND && AreChunks(rest)
  {
    var all := [c] + rest;
    assert all[0] == c && IsChunk(all[0]);
    forall i | 0 <= i < |rest|
      ensures IsChunk(rest[i])
    {
      assert IsChunk(all[i + 1]);
    }
  }

  lemma WalkOverNext(sum: Sum, bytes: Bytes, offset: nat, seen: bool, chunks: seq<Chunk>, c: Chunk, rest: seq<Chunk>)
    returns (end: nat, seen': bool)
    requires rest != [] && chunks == [c] + rest && EndsWell(chunks, seen)
    requires offset <= |bytes| && bytes[offset..] == Write(sum, chunks)
    ensures end <= |bytes| && EndsWell(rest, seen') && bytes[end..] == Write(sum, rest)
    ensures Walk(sum, bytes, offset, seen) == Walk(sum, bytes, end, seen')
  {
    HeadAndRest(c, rest, seen);
    WriteMore(sum, c, rest);
    PrependEndsWell(c, rest, seen);
    WalkOver(sum, bytes, offset, seen, c, Write(sum, rest));
    end, seen' := offset + |c.data| + 12, seen || c.kind == IDAT;
  }

  lemma {:induction false} WrittenChunksWalk(sum: Sum, bytes: Bytes, offset: nat, seen: bool, chunks: seq<Chunk>)
    requires offset <= |bytes| && EndsWell(chunks, seen) && bytes[offset..] == Write(sum, chunks)
    ensures Walk(sum, bytes, offset, seen)
    decreases |chunks|
  {
    if |chunks| == 1 {
      LastWritten(sum, bytes, offset, seen, chunks);
    } else {
      assert chunks == [chunks[0]] + chunks[1..];
      var end, seen' := WalkOverNext(sum, bytes, offset, seen, chunks, chunks[0], chunks[1..]);
      WrittenChunksWalk(sum, bytes, end, seen', chunks[1..]);
    }
  }

  /** What the header chunk must say. */
  predicate IsHeader(c: Chunk, width: nat, height: nat) {
    && c.kind == IHDR && |c.data| == 13
    && Big(c.data[..4]) == width && Big(c.data[4..8]) == height
    && 1 <= width <= MAX_DIMENSION && 1 <= height <= MAX_DIMENSION
    && c.data[10] == 0 && c.data[11] == 0 && c.data[12] <= 1
  }

  /** The signature, then a list of chunks that begins with a valid header and ends well. */
  ghost predicate IsPng(sum: Sum, bytes: Bytes, chunks: seq<Chunk>, width: nat, height: nat) {
    EndsWell(chunks, false) && IsHeader(chunks[0], width, height) && bytes == SIGNATURE + Write(sum, chunks)
  }

  lemma HeaderBytes(sum: Sum, bytes: Bytes, c: Chunk, rest: Bytes)
    requires IsChunk(c) && |c.data| == 13 && bytes == SIGNATURE + (WriteChunk(sum, c) + rest)
    ensures |bytes| >= 33 && bytes[..8] == SIGNATURE && Big(bytes[8..12]) == 13 && bytes[12..16] == c.kind
    ensures bytes[16..20] == c.data[..4] && bytes[20..24] == c.data[4..8]
    ensures bytes[26..28] == c.data[10..12] && bytes[28] == c.data[12]
  {
    assert bytes[8..] == WriteChunk(sum, c) + rest;
    FirstChunk(sum, bytes, 8, c, rest);
    var body := c.kind + c.data;
    assert bytes[12..29] == body;
    assert forall i :: 0 <= i < 17 ==> bytes[12 + i] == bytes[12..29][i] == body[i];
    assert forall i :: 0 <= i < 13 ==> bytes[16 + i] == c.data[i];
    assert forall i :: 0 <= i < 4 ==> bytes[12 + i] == c.kind[i];
  }

  lemma PngHasDimensions(sum: Sum, bytes: Bytes, chunks: seq<Chunk>, width: nat, height: nat)
    requires IsPng(sum, bytes, chunks, width, height)
    ensures Dimensions(sum, bytes) == Some((width, height))
  {
    HeaderBytes(sum, bytes, chunks[0], Write(sum, chunks[1..]));
    assert bytes[8..] == Write(sum, chunks);
    WrittenChunksWalk(sum, bytes, 8, false, chunks);
  }

  lemma DimensionsMeanPng(sum: Sum, bytes: Bytes, width: nat, height: nat) returns (chunks: seq<Chunk>)
    requires Dimensions(sum, bytes) == Some((width, height))
    ensures IsPng(sum, bytes, chunks, width, height)
  {
    chunks := WalkFindsChunks(sum, bytes, 8, false);
    assert bytes == bytes[..8] + bytes[8..];
    assert Write(sum, chunks) == WriteChunk(sum, chunks[0]) + Write(sum, chunks[1..]);
    HeaderBytes(sum, bytes, chunks[0], Write(sum, chunks[1..]));
    assert bytes[26..28] == [0, 0] && bytes[26..28][0] == 0 && bytes[26..28][1] == 0;
    assert bytes[26..28][0] == chunks[0].data[10..12][0] && bytes[26..28][1] == chunks[0].data[10..12][1];
  }

  /** The dimensions are given exactly for the signature followed by a written list of chunks that
      starts with a valid IHDR, has an IDAT, and ends at its first IEND, which is empty. */
  lemma DimensionsAreExact(sum: Sum, bytes: Bytes, width: nat, height: nat)
    ensures Dimensions(sum, bytes) == Some((width, height)) <==> exists chunks :: IsPng(sum, bytes, chunks, width, height)
  {
    if Dimensions(sum, bytes) == Some((width, height)) {
      var chunks := DimensionsMeanPng(sum, bytes, width, height);
    }
    if chunks :| IsPng(sum, bytes, chunks, width, height) {
      PngHasDimensions(sum, bytes, chunks, width, height);
    }
  }
}
