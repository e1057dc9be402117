// setup/lib/teams-manifest.ts: PNG chunks and the RGBA encoder, against a reader of section 3.2 of
// RFC 2083 (chunk layout) and section 6.2 (filter type 0). Deflate is a parameter.
module Png {
  import opened Wrappers
  import opened Crc32

  const U32_LIMIT := 0x1_0000_0000

  const SIGNATURE: seq<byte> := [0x89, 0x50, 0x4e, 0x47, 0x0d, 0x0a, 0x1a, 0x0a]
  const IHDR: seq<byte> := [0x49, 0x48, 0x44, 0x52]
  const IDAT: seq<byte> := [0x49, 0x44, 0x41, 0x54]
  const IEND: seq<byte> := [0x49, 0x45, 0x4e, 0x44]

  // writeUInt32BE, for values it accepts.
  function U32(n: nat): (s: seq<byte>)
    requires n < U32_LIMIT
    ensures |s| == 4
  {
    [n / 0x100_0000, n / 0x1_0000 % 256, n / 256 % 256, n % 256]
  }

  // Buffer.alloc
  function Alloc(n: nat): seq<byte> { seq(n, i => 0) }

  function ReadU32(s: seq<byte>): nat
    requires |s| >= 4
  {
    (s[0] as int) * 0x100_0000 + (s[1] as int) * 0x1_0000 + (s[2] as int) * 256 + s[3] as int
  }

  lemma Base256(n: nat)
    requires n < U32_LIMIT
    ensures n == 256 * (n / 256) + n % 256 && n / 256 == 256 * (n / 0x1_0000) + n / 256 % 256
    ensures n / 0x1_0000 == 256 * (n / 0x100_0000) + n / 0x1_0000 % 256
  {
  }

  lemma U32RoundTrip(n: nat, rest: seq<byte>)
    requires n < U32_LIMIT
    ensures ReadU32(U32(n) + rest) == n
  {
    Base256(n);
    var s := U32(n) + rest;
    assert s[0] == U32(n)[0] && s[1] == U32(n)[1] && s[2] == U32(n)[2] && s[3] == U32(n)[3];
  }

  function ChunkBytes(kind: seq<byte>, data: seq<byte>): seq<byte>
    requires |data| < U32_LIMIT
  {
    CrcRange(kind + data);
    U32(|data|) + kind + data + U32(Crc32Of(kind + data))
  }

  // Section 3.1 of RFC 2083 gives the signature in decimal; the chunk names are their ASCII letters; numbers
  // have their most significant byte first.
  lemma BytesInNumbers(n: nat)
    requires n < U32_LIMIT
    ensures SIGNATURE == [137, 80, 78, 71, 13, 10, 26, 10]
    ensures IHDR == [73, 72, 68, 82] && IDAT == [73, 68, 65, 84] && IEND == [73, 69, 78, 68]
    ensures U32(n)[0] as int * 16777216 + U32(n)[1] as int * 65536 + U32(n)[2] as int * 256 + U32(n)[3] as int == n
  {
    U32RoundTrip(n, []);
    assert U32(n) + [] == U32(n);
  }

  // ---------------------------------------------------------------- an independent reader

  datatype Chunk = Chunk(kind: seq<byte>, data: seq<byte>)

  function ReadChunks(s: seq<byte>): Option<seq<Chunk>>
    decreases |s|
  {
    if s == [] then Some([])
    else if |s| < 12 then None
    else
      var len := ReadU32(s);
      if |s| < 12 + len then None
      else if ReadU32(s[8 + len..]) != Crc32Of(s[4..8 + len]) then None
      else
        var rest := ReadChunks(s[12 + len..]);
        if rest.None? then None else Some([Chunk(s[4..8], s[8..8 + len])] + rest.value)
  }

  function ReadPng(s: seq<byte>): Option<seq<Chunk>> {
    if SIGNATURE <= s then ReadChunks(s[8..]) else None
  }

  // Where the reader finds the parts of a chunk.
  lemma ChunkParts(kind: seq<byte>, data: seq<byte>, crc: nat, rest: seq<byte>, s: seq<byte>)
    requires |kind| == 4 && |data| < U32_LIMIT && crc < U32_LIMIT
    requires s == U32(|data|) + kind + data + U32(crc) + rest
    ensures |s| >= 12 + |data| && ReadU32(s) == |data| && ReadU32(s[8 + |data|..]) == crc
    ensures s[4..8 + |data|] == kind + data && s[4..8] == kind && s[8..8 + |data|] == data && s[12 + |data|..] == rest
  {
    assert s == U32(|data|) + (kind + data + U32(crc) + rest);
    U32RoundTrip(|data|, kind + data + U32(crc) + rest);
    assert s[8 + |data|..] == U32(crc) + rest;
    U32RoundTrip(crc, rest);
  }

  lemma ReadOneChunk(kind: seq<byte>, data: seq<byte>, rest: seq<byte>)
    requires |kind| == 4 && |data| < U32_LIMIT
    ensures ReadChunks(ChunkBytes(kind, data) + rest)
            == match ReadChunks(rest) case None => None case Some(cs) => Some([Chunk(kind, data)] + cs)
  {
    CrcRange(kind + data);
    ChunkParts(kind, data, Crc32Of(kind + data), rest, ChunkBytes(kind, data) + rest);
  }

  // ---------------------------------------------------------------- scanlines

  // The first h rows, each with filter byte 0 in front.
  function Rows(pixels: seq<byte>, rowBytes: nat, h: nat): (raw: seq<byte>)
    requires h * rowBytes <= |pixels|
    ensures |raw| == h * (rowBytes + 1)
    decreases h
  {
    if h == 0 then []
    else
      assert (h - 1) * rowBytes + rowBytes == h * rowBytes;
      Rows(pixels, rowBytes, h - 1) + [0] + pixels[(h - 1) * rowBytes..h * rowBytes]
  }

  function Unfilter(raw: seq<byte>, rowBytes: nat): Option<seq<byte>>
    decreases |raw|
  {
    if raw == [] then Some([])
    else if |raw| < rowBytes + 1 || raw[0] != 0 then None
    else
      var rest := Unfilter(raw[rowBytes + 1..], rowBytes);
      if rest.None? then None else Some(raw[1..rowBytes + 1] + rest.value)
  }

  // A row in front.
  lemma UnfilterCons(row: seq<byte>, rest: seq<byte>, rowBytes: nat, s: seq<byte>)
    requires |row| == rowBytes + 1 && s == row + rest
    ensures Unfilter(s, rowBytes)
            == if row[0] != 0 then None
               else match Unfilter(rest, rowBytes) case None => None case Some(p) => Some(row[1..] + p)
  {
    assert s[1..rowBytes + 1] == row[1..] && s[rowBytes + 1..] == rest;
  }

  lemma LastRow(row: seq<byte>, rowBytes: nat, s: seq<byte>)
    requires |row| == rowBytes && s == [0] + row
    ensures Unfilter(s, rowBytes) == Some(row)
  {
    UnfilterCons(s, [], rowBytes, s);
    assert s + [] == s && s[1..] + [] == row;
  }

  lemma FirstRow(a: seq<byte>, h: nat, rowBytes: nat)
    requires h > 0 && |a| == h * (rowBytes + 1)
    ensures rowBytes + 1 <= |a| && |a[rowBytes + 1..]| == (h - 1) * (rowBytes + 1)
  {
    assert h * (rowBytes + 1) == (h - 1) * (rowBytes + 1) + (rowBytes + 1);
  }

  lemma Behind(a: seq<byte>, b: seq<byte>, c: seq<byte>, ab: seq<byte>, abc: seq<byte>)
    requires |a| <= |ab| && a == ab[..|a|] && b == ab[|a|..] && abc == ab + c
    ensures ab == a + b && abc == a + (b + c)
  {
  }

  lemma {:induction false} UnfilterAppend(a: seq<byte>, h: nat, row: seq<byte>, rowBytes: nat)
    requires |row| == rowBytes && |a| == h * (rowBytes + 1)
    ensures Unfilter(a + ([0] + row), rowBytes)
            == match Unfilter(a, rowBytes) case None => None case Some(p) => Some(p + row)
    decreases h
  {
    var s := a + ([0] + row);
    if h == 0 {
      assert s == [0] + row && [] + row == row;
      LastRow(row, rowBytes, s);
    } else {
      FirstRow(a, h, rowBytes);
      var first, b := a[..rowBytes + 1], a[rowBytes + 1..];
      UnfilterAppend(b, h - 1, row, rowBytes);
      Behind(first, b, [0] + row, a, s);
      UnfilterCons(first, b, rowBytes, a);
      UnfilterCons(first, b + ([0] + row), rowBytes, s);
      if first[0] == 0 && Unfilter(b, rowBytes).Some? {
        var p := Unfilter(b, rowBytes).value;
        Behind(first[1..], p, row, first[1..] + p, (first[1..] + p) + row);
      }
    }
  }

  lemma {:induction false} UnfilterRows(pixels: seq<byte>, rowBytes: nat, h: nat)
    requires h * rowBytes <= |pixels|
    ensures Unfilter(Rows(pixels, rowBytes, h), rowBytes) == Some(pixels[..h * rowBytes])
    decreases h
  {
    if h > 0 {
      var from := (h - 1) * rowBytes;
      assert from + rowBytes == h * rowBytes;
      UnfilterRows(pixels, rowBytes, h - 1);
      UnfilterAppend(Rows(pixels, rowBytes, h - 1), h - 1, pixels[from..from + rowBytes], rowBytes);
      assert Rows(pixels, rowBytes, h) == Rows(pixels, rowBytes, h - 1) + ([0] + pixels[from..from + rowBytes]);
      assert pixels[..from] + pixels[from..from + rowBytes] == pixels[..from + rowBytes];
    }
  }

  // ---------------------------------------------------------------- the encoder

  function Header(width: nat, height: nat): seq<byte>
    requires width < U32_LIMIT && height < U32_LIMIT
  {
    U32(width) + U32(height) + [8, 6, 0, 0, 0]
  }

  // None stands for the RangeError of writeUInt32BE.
  function EncodedPng(width: nat, height: nat, pixels: seq<byte>, deflate: seq<byte> -> seq<byte>): Option<seq<byte>>
    requires |pixels| == height * (width * 4)
  {
    if width >= U32_LIMIT || height >= U32_LIMIT then None
    else
      var idat := deflate(Rows(pixels, width * 4, height));
      if |idat| >= U32_LIMIT then None
      else Some(SIGNATURE + ChunkBytes(IHDR, Header(width, height)) + ChunkBytes(IDAT, idat)
                + ChunkBytes(IEND, Alloc(0)))
  }

  method WriteChunk(table: array<Word>, kind: seq<byte>, data: seq<byte>) returns (bytes: seq<byte>)
    requires table.Length == 256 && forall n :: 0 <= n < 256 ==> table[n] == Entry(n)
    requires |data| < U32_LIMIT
    ensures bytes == ChunkBytes(kind, data)
  {
    var crc := ComputeCrc(table, kind + data);
    bytes := U32(|data|) + kind + data + U32(crc);
  }

  lemma RowBounds(y: nat, height: nat, n: nat)
    requires y < height
    ensures (y + 1) * n == y * n + n <= height * n
  {
    assert height * n == (y + 1) * n + (height - y - 1) * n;
  }

  // One row: the filter byte, then the pixels.
  method FillRow(raw: array<byte>, start: nat, pixels: seq<byte>, from: nat, n: nat)
    requires start + 1 + n <= raw.Length && from + n <= |pixels|
    modifies raw
    ensures raw[..start + 1 + n] == old(raw[..start]) + [0] + pixels[from..from + n]
  {
    raw[start] := 0;
    for x := 0 to n
      invariant raw[..start] == old(raw[..start]) && raw[start] == 0
      invariant raw[start + 1..start + 1 + x] == pixels[from..from + x]
    {
      raw[start + 1 + x] := pixels[from + x];
    }
    assert raw[..start + 1 + n] == raw[..start] + [raw[start]] + raw[start + 1..start + 1 + n];
  }

  lemma NextRow(pixels: seq<byte>, rowBytes: nat, y: nat, from: nat)
    requires (y + 1) * rowBytes <= |pixels| && from == y * rowBytes
    ensures from + rowBytes == (y + 1) * rowBytes
    ensures Rows(pixels, rowBytes, y + 1) == Rows(pixels, rowBytes, y) + [0] + pixels[from..from + rowBytes]
  {
  }

  method FilterRows(rowBytes: nat, height: nat, pixels: seq<byte>) returns (raw: array<byte>)
    requires |pixels| == height * rowBytes
    ensures fresh(raw) && raw[..] == Rows(pixels, rowBytes, height)
  {
    raw := new byte[height * (rowBytes + 1)];
    for y := 0 to height
      invariant y * (rowBytes + 1) <= raw.Length && y * rowBytes <= |pixels|
      invariant raw[..y * (rowBytes + 1)] == Rows(pixels, rowBytes, y)
    {
      RowBounds(y, height, rowBytes);
      RowBounds(y, height, rowBytes + 1);
      NextRow(pixels, rowBytes, y, y * rowBytes);
      FillRow(raw, y * (rowBytes + 1), pixels, y * rowBytes, rowBytes);
      assert (y + 1) * (rowBytes + 1) == y * (rowBytes + 1) + 1 + rowBytes;
    }
    assert raw[..] == raw[..height * (rowBytes + 1)];
  }

  method EncodePng(table: array<Word>, width: nat, height: nat, pixels: seq<byte>, deflate: seq<byte> -> seq<byte>)
    returns (png: Option<seq<byte>>)
    requires table.Length == 256 && forall n :: 0 <= n < 256 ==> table[n] == Entry(n)
    requires |pixels| == height * (width * 4)
    ensures png == EncodedPng(width, height, pixels, deflate)
  {
    if width >= U32_LIMIT || height >= U32_LIMIT { return None; }
    var ihdr := U32(width) + U32(height) + [8, 6, 0, 0, 0];
    var raw := FilterRows(width * 4, height, pixels);
    var idat := deflate(raw[..]);
    if |idat| >= U32_LIMIT { return None; }
    var c1 := WriteChunk(table, IHDR, ihdr);
    var c2 := WriteChunk(table, IDAT, idat);
    var c3 := WriteChunk(table, IEND, Alloc(0));
    png := Some(SIGNATURE + c1 + c2 + c3);
  }

  // ---------------------------------------------------------------- decoding what was encoded

  datatype Image = Image(width: nat, height: nat, pixels: seq<byte>)

  function ImageOf(cs: seq<Chunk>, inflate: seq<byte> -> seq<byte>): Option<Image> {
    if |cs| != 3 || cs[0].kind != IHDR || cs[1].kind != IDAT || cs[2].kind != IEND || |cs[2].data| != 0
       || |cs[0].data| != 13 || cs[0].data[8..] != [8, 6, 0, 0, 0] then None
    else
      var width := ReadU32(cs[0].data);
      var pixels := Unfilter(inflate(cs[1].data), width * 4);
      if pixels.None? then None else Some(Image(width, ReadU32(cs[0].data[4..]), pixels.value))
  }

  function DecodePng(s: seq<byte>, inflate: seq<byte> -> seq<byte>): Option<Image> {
    match ReadPng(s)
    case None => None
    case Some(cs) => ImageOf(cs, inflate)
  }

  lemma Regroup(sig: seq<byte>, c1: seq<byte>, c2: seq<byte>, c3: seq<byte>, s: seq<byte>)
    requires s == sig + c1 + c2 + c3
    ensures sig <= s && s[|sig|..] == c1 + (c2 + (c3 + []))
  {
  }

  predicate Reads(s: seq<byte>, cs: seq<Chunk>) { ReadChunks(s) == Some(cs) }

  lemma ReadsOneMore(c: Chunk, bytes: seq<byte>, rest: seq<byte>, cs: seq<Chunk>)
    requires |c.kind| == 4 && |c.data| < U32_LIMIT && bytes == ChunkBytes(c.kind, c.data) && Reads(rest, cs)
    ensures Reads(bytes + rest, [c] + cs)
  {
    ReadOneChunk(c.kind, c.data, rest);
  }

  lemma ReadsLast(c: Chunk, bytes: seq<byte>)
    requires |c.kind| == 4 && |c.data| < U32_LIMIT && bytes == ChunkBytes(c.kind, c.data)
    ensures Reads(bytes + [], [c])
  {
    ReadsOneMore(c, bytes, [], []);
    assert [c] + [] == [c];
  }

  lemma ReadsLastTwo(b: Chunk, c2: seq<byte>, c: Chunk, rest: seq<byte>)
    requires |b.kind| == 4 && |b.data| < U32_LIMIT && c2 == ChunkBytes(b.kind, b.data) && Reads(rest, [c])
    ensures Reads(c2 + rest, [b, c])
  {
    ReadsOneMore(b, c2, rest, [c]);
    assert [b] + [c] == [b, c];
  }

  lemma ReadsLastThree(a: Chunk, c1: seq<byte>, b: Chunk, c: Chunk, rest: seq<byte>)
    requires |a.kind| == 4 && |a.data| < U32_LIMIT && c1 == ChunkBytes(a.kind, a.data) && Reads(rest, [b, c])
    ensures Reads(c1 + rest, [a, b, c])
  {
    ReadsOneMore(a, c1, rest, [b, c]);
    assert [a] + [b, c] == [a, b, c];
  }

  lemma ReadThreeChunks(a: Chunk, b: Chunk, c: Chunk, s: seq<byte>)
    requires |a.kind| == |b.kind| == |c.kind| == 4
    requires |a.data| < U32_LIMIT && |b.data| < U32_LIMIT && |c.data| < U32_LIMIT
    requires s == SIGNATURE + ChunkBytes(a.kind, a.data) + ChunkBytes(b.kind, b.data) + ChunkBytes(c.kind, c.data)
    ensures ReadPng(s) == Some([a, b, c])
  {
    Regroup(SIGNATURE, ChunkBytes(a.kind, a.data), ChunkBytes(b.kind, b.data), ChunkBytes(c.kind, c.data), s);
    var c1, c2, c3 := ChunkBytes(a.kind, a.data), ChunkBytes(b.kind, b.data), ChunkBytes(c.kind, c.data);
    ReadsLast(c, c3);
    ReadsLastTwo(b, c2, c, c3 + []);
    ReadsLastThree(a, c1, b, c, c2 + (c3 + []));
  }

  // The reader finds exactly the three chunks, all with valid CRCs.
  lemma ReaderFindsThreeChunks(width: nat, height: nat, pixels: seq<byte>, deflate: seq<byte> -> seq<byte>)
    requires |pixels| == height * (width * 4) && EncodedPng(width, height, pixels, deflate).Some?
    ensures ReadPng(EncodedPng(width, height, pixels, deflate).value)
            == Some([Chunk(IHDR, Header(width, height)), Chunk(IDAT, deflate(Rows(pixels, width * 4, height))),
                     Chunk(IEND, Alloc(0))])
  {
    ReadThreeChunks(Chunk(IHDR, Header(width, height)), Chunk(IDAT, deflate(Rows(pixels, width * 4, height))),
                    Chunk(IEND, Alloc(0)), EncodedPng(width, height, pixels, deflate).value);
  }

  lemma HeaderRead(width: nat, height: nat)
    requires width < U32_LIMIT && height < U32_LIMIT
    ensures var h := Header(width, height);
            |h| == 13 && h[8..] == [8, 6, 0, 0, 0] && ReadU32(h) == width && ReadU32(h[4..]) == height
  {
    var header := Header(width, height);
    var tail: seq<byte> := [8, 6, 0, 0, 0];
    U32RoundTrip(width, U32(height) + tail);
    assert header == U32(width) + (U32(height) + tail);
    assert header[4..] == U32(height) + tail;
    U32RoundTrip(height, tail);
  }

  lemma ImageOfEncoded(width: nat, height: nat, pixels: seq<byte>, cs: seq<Chunk>, inflate: seq<byte> -> seq<byte>)
    requires |pixels| == height * (width * 4) && width < U32_LIMIT && height < U32_LIMIT
    requires |cs| == 3 && cs[0] == Chunk(IHDR, Header(width, height))
    requires cs[1].kind == IDAT && cs[2] == Chunk(IEND, Alloc(0))
    requires inflate(cs[1].data) == Rows(pixels, width * 4, height)
    ensures ImageOf(cs, inflate) == Some(Image(width, height, pixels))
  {
    HeaderRead(width, height);
    UnfilterRows(pixels, width * 4, height);
    assert pixels[..height * (width * 4)] == pixels;
  }

  // Encoding then decoding gives back the image, for every size and every pixel array, and the encoder
  // fails only when a length does not fit in 32 bits.
  lemma DecodeEncode(width: nat, height: nat, pixels: seq<byte>, deflate: seq<byte> -> seq<byte>,
                     inflate: seq<byte> -> seq<byte>)
    requires |pixels| == height * (width * 4)
    requires forall x :: inflate(deflate(x)) == x
    ensures var png := EncodedPng(width, height, pixels, deflate);
            && (png.Some?
                <==> width < U32_LIMIT && height < U32_LIMIT && |deflate(Rows(pixels, width * 4, height))| < U32_LIMIT)
            && (png.Some? ==> DecodePng(png.value, inflate) == Some(Image(width, height, pixels)))
  {
    if EncodedPng(width, height, pixels, deflate).Some? {
      var raw := Rows(pixels, width * 4, height);
      assert inflate(deflate(raw)) == raw;
      ReaderFindsThreeChunks(width, height, pixels, deflate);
      ImageOfEncoded(width, height, pixels,
                     [Chunk(IHDR, Header(width, height)), Chunk(IDAT, deflate(raw)), Chunk(IEND, Alloc(0))], inflate);
    }
  }
}
