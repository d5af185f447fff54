/**
 * PNG files as the source lays them out: chunks with a length, a type and a CRC (section 5.3 of the PNG
 * specification), and rows with a filter byte each. `deflateSync` is any function with an inverse.
 */
module Png {
  import opened Crc

  type Byte = bv8

  const LIMIT := 0x1_0000_0000

  const SIGNATURE: seq<Byte> := [0x89, 0x50, 0x4e, 0x47, 0x0d, 0x0a, 0x1a, 0x0a]
  const IHDR: seq<Byte> := [0x49, 0x48, 0x44, 0x52]
  const IDAT: seq<Byte> := [0x49, 0x44, 0x41, 0x54]
  const IEND: seq<Byte> := [0x49, 0x45, 0x4e, 0x44]

  datatype Option<T> = None | Some(value: T)

  datatype Chunk = Chunk(kind: seq<Byte>, data: seq<Byte>) {
    /** What `chunk` can write: `writeUInt32BE` throws on a longer one. */
    predicate Writable() {
      |kind| == 4 && |data| < LIMIT
    }
  }

  // ---------------------------------------------------------------- numbers

  function Pack(p: bool, q: bool, r: bool, s: bool, t: bool, u: bool, v: bool, w: bool): Byte {
    (if p then 128 else 0) | (if q then 64 else 0) | (if r then 32 else 0) | (if s then 16 else 0)
    | (if t then 8 else 0) | (if u then 4 else 0) | (if v then 2 else 0) | (if w then 1 else 0)
  }

  /** Bit `k` of `n` */
  predicate Bit(n: nat, k: nat) {
    Halved(n, k) % 2 == 1
  }

  function Halved(n: nat, k: nat): nat {
    if k == 0 then n else Halved(n, k - 1) / 2
  }

  /** The last eight bits of `n` */
  function Digit(n: nat): Byte {
    Pack(Bit(n, 7), Bit(n, 6), Bit(n, 5), Bit(n, 4), Bit(n, 3), Bit(n, 2), Bit(n, 1), Bit(n, 0))
  }

  predicate Has(b: Byte, mask: Byte) {
    b & mask != 0
  }

  function Value(b: Byte): nat {
    Weigh(Has(b, 128), Has(b, 64), Has(b, 32), Has(b, 16), Has(b, 8), Has(b, 4), Has(b, 2), Has(b, 1))
  }

  function Weigh(p: bool, q: bool, r: bool, s: bool, t: bool, u: bool, v: bool, w: bool): nat {
    Nibble(p, q, r, s) * 16 + Nibble(t, u, v, w)
  }

  function Nibble(p: bool, q: bool, r: bool, s: bool): (n: nat)
    ensures n < 16
  {
    (if p then 8 else 0) + (if q then 4 else 0) + (if r then 2 else 0) + if s then 1 else 0
  }

  lemma PackHas(p: bool, q: bool, r: bool, s: bool, t: bool, u: bool, v: bool, w: bool)
    ensures var b := Pack(p, q, r, s, t, u, v, w);
            && Has(b, 128) == p && Has(b, 64) == q && Has(b, 32) == r && Has(b, 16) == s
            && Has(b, 8) == t && Has(b, 4) == u && Has(b, 2) == v && Has(b, 1) == w
  {
  }

  lemma BitCounts(n: nat, k: nat)
    ensures Halved(n, k) == Halved(n, k + 1) * 2 + if Bit(n, k) then 1 else 0
  {
  }

  lemma FourBits(n: nat, k: nat)
    ensures Halved(n, k) == Halved(n, k + 4) * 16 + Nibble(Bit(n, k + 3), Bit(n, k + 2), Bit(n, k + 1), Bit(n, k))
  {
    hide Bit, Halved;
    BitCounts(n, k);
    BitCounts(n, k + 1);
    BitCounts(n, k + 2);
    BitCounts(n, k + 3);
  }

  lemma EightBits(n: nat)
    ensures n == Halved(n, 8) * 256 +
            Weigh(Bit(n, 7), Bit(n, 6), Bit(n, 5), Bit(n, 4), Bit(n, 3), Bit(n, 2), Bit(n, 1), Bit(n, 0))
  {
    assert Halved(n, 0) == n;
    hide Bit, Halved, Nibble;
    FourBits(n, 0);
    FourBits(n, 4);
  }

  lemma WeighBits(n: nat)
    ensures Weigh(Bit(n, 7), Bit(n, 6), Bit(n, 5), Bit(n, 4), Bit(n, 3), Bit(n, 2), Bit(n, 1), Bit(n, 0)) == n % 256
  {
    var sum := Weigh(Bit(n, 7), Bit(n, 6), Bit(n, 5), Bit(n, 4), Bit(n, 3), Bit(n, 2), Bit(n, 1), Bit(n, 0));
    hide Bit, Halved, Nibble;
    EightBits(n);
    assert sum < 256;
    hide Weigh;
    Remainder(n, Halved(n, 8), sum);
  }

  lemma Remainder(n: nat, q: nat, r: nat)
    requires n == q * 256 + r && r < 256
    ensures n % 256 == r
  {
  }

  lemma DigitValue(n: nat)
    ensures Value(Digit(n)) == n % 256
  {
    hide Pack, Has, Weigh, Bit;
    PackHas(Bit(n, 7), Bit(n, 6), Bit(n, 5), Bit(n, 4), Bit(n, 3), Bit(n, 2), Bit(n, 1), Bit(n, 0));
    WeighBits(n);
  }

  lemma FourDigits(n: nat)
    requires n < LIMIT
    ensures n / 256 / 256 / 256 % 256 * 0x100_0000 + n / 256 / 256 % 256 * 0x1_0000 + n / 256 % 256 * 0x100
            + n % 256 == n
  {
    var a := n / 256;
    var b := a / 256;
    var c := b / 256;
    assert n == a * 256 + n % 256;
    assert a == b * 256 + a % 256;
    assert b == c * 256 + b % 256;
    assert c < 256;
  }

  /** `writeUInt32BE` of a length */
  function BigEndian(n: nat): (s: seq<Byte>)
    ensures |s| == 4
  {
    [Digit(n / 256 / 256 / 256), Digit(n / 256 / 256), Digit(n / 256), Digit(n)]
  }

  function FromBigEndian(s: seq<Byte>): nat
    requires |s| == 4
  {
    Value(s[0]) * 0x100_0000 + Value(s[1]) * 0x1_0000 + Value(s[2]) * 0x100 + Value(s[3])
  }

  lemma BigEndianBack(n: nat)
    requires n < LIMIT
    ensures FromBigEndian(BigEndian(n)) == n
  {
    hide Digit, Value;
    DigitValue(n / 256 / 256 / 256);
    DigitValue(n / 256 / 256);
    DigitValue(n / 256);
    DigitValue(n);
    FourDigits(n);
  }

  /** What four bytes are as a number, the most significant first */
  function Number(s: seq<Byte>): nat
    requires |s| == 4
  {
    s[0] as nat * 0x100_0000 + s[1] as nat * 0x1_0000 + s[2] as nat * 0x100 + s[3] as nat
  }

  lemma ValueIs(b: Byte)
    ensures Value(b) == b as nat
  {
  }

  lemma BigEndianReads(n: nat)
    requires n < LIMIT
    ensures Number(BigEndian(n)) == n
  {
    var s := BigEndian(n);
    BigEndianBack(n);
    hide BigEndian, Value;
    ValueIs(s[0]);
    ValueIs(s[1]);
    ValueIs(s[2]);
    ValueIs(s[3]);
  }

  lemma SmallNumber(s: seq<Byte>, b: Byte)
    requires |s| == 4 && Number(s) == b as nat
    ensures s == [0, 0, 0, b]
  {
    LastOnly(s[0] as nat, s[1] as nat, s[2] as nat, s[3] as nat, b as nat);
    hide Number;
    SameByte(s[0], 0);
    SameByte(s[1], 0);
    SameByte(s[2], 0);
    SameByte(s[3], b);
  }

  lemma LastOnly(p: nat, q: nat, r: nat, s: nat, n: nat)
    requires p * 0x100_0000 + q * 0x1_0000 + r * 0x100 + s == n < 256
    ensures p == q == r == 0 && s == n
  {
  }

  lemma SameByte(b: Byte, c: Byte)
    requires b as nat == c as nat
    ensures b == c
  {
  }

  /** `writeUInt32BE` of a CRC */
  function WordBytes(w: Word): (s: seq<Byte>)
    ensures |s| == 4
  {
    [((w >> 24) & 0xff) as bv8, ((w >> 16) & 0xff) as bv8, ((w >> 8) & 0xff) as bv8, (w & 0xff) as bv8]
  }

  lemma WordBytesInjective(v: Word, w: Word)
    requires WordBytes(v) == WordBytes(w)
    ensures v == w
  {
    var s, t := WordBytes(v), WordBytes(w);
    assert s[0] == t[0] && s[1] == t[1] && s[2] == t[2] && s[3] == t[3];
  }

  // ---------------------------------------------------------------- chunks

  /** `chunk` */
  function ChunkBytes(c: Chunk): seq<Byte> {
    BigEndian(|c.data|) + c.kind + c.data + WordBytes(BitwiseCrc(c.kind + c.data))
  }

  method WriteChunk(table: array<Word>, kind: seq<Byte>, data: seq<Byte>) returns (r: Option<seq<Byte>>)
    requires table.Length == 256 && forall n | 0 <= n < 256 :: table[n] == Steps(n as bv32, 8)
    requires |kind| == 4
    ensures r == if |data| < LIMIT then Some(ChunkBytes(Chunk(kind, data))) else None
  {
    hide Steps, BitwiseCrc, WordBytes, BigEndian;
    if |data| >= LIMIT {
      return None;
    }
    var head := BigEndian(|data|) + kind;
    assert head[4..] == kind;
    var crc := Crc32(table, head[4..] + data);
    return Some(head + data + WordBytes(crc));
  }

  /** What a reader makes of the start of `bytes`: a chunk and its length, if the CRC is right. */
  function ReadChunk(bytes: seq<Byte>): Option<(Chunk, nat)> {
    if |bytes| < 12 then None else
      var n := FromBigEndian(bytes[..4]);
      if |bytes| < 12 + n then None else
        var c := Chunk(bytes[4..8], bytes[8..8 + n]);
        if bytes[8 + n..12 + n] != WordBytes(BitwiseCrc(c.kind + c.data)) then None else Some((c, 12 + n))
  }

  /** A chunk that was written is read, whatever follows it. */
  lemma ReadWritten(c: Chunk, rest: seq<Byte>)
    requires c.Writable()
    ensures ReadChunk(ChunkBytes(c) + rest) == Some((c, |ChunkBytes(c)|))
  {
    hide BitwiseCrc, WordBytes, BigEndian, FromBigEndian;
    var n := |c.data|;
    var bytes := ChunkBytes(c) + rest;
    BigEndianBack(n);
    assert bytes[..4] == BigEndian(n);
    assert bytes[4..8] == c.kind;
    assert bytes[8..8 + n] == c.data;
    assert bytes[8 + n..12 + n] == WordBytes(BitwiseCrc(c.kind + c.data));
  }

  /** A reader refuses a written chunk in which up to four consecutive bytes of type and data were changed. */
  lemma BurstRefused(c: Chunk, before: seq<Byte>, x: seq<Byte>, y: seq<Byte>, after: seq<Byte>, rest: seq<Byte>)
    requires c.Writable() && c.kind + c.data == before + x + after
    requires |x| == |y| <= 4 && x != y
    ensures var sent := BigEndian(|c.data|) + (before + y + after) + WordBytes(BitwiseCrc(c.kind + c.data)) + rest;
            ReadChunk(sent).None?
  {
    hide BitwiseCrc, WordBytes, BigEndian, FromBigEndian;
    var n, damaged := |c.data|, before + y + after;
    var crc := WordBytes(BitwiseCrc(c.kind + c.data));
    var sent := BigEndian(n) + damaged + crc + rest;
    BigEndianBack(n);
    assert sent[..4] == BigEndian(n);
    assert |damaged| == 4 + n;
    assert sent[4..8] + sent[8..8 + n] == damaged;
    assert sent[8 + n..12 + n] == crc;
    BurstDetected(before, x, y, after);
    if WordBytes(BitwiseCrc(damaged)) == crc {
      WordBytesInjective(BitwiseCrc(damaged), BitwiseCrc(c.kind + c.data));
    }
  }

  function ChunksBytes(chunks: seq<Chunk>): seq<Byte> {
    if chunks == [] then [] else ChunkBytes(chunks[0]) + ChunksBytes(chunks[1..])
  }

  function ReadChunks(bytes: seq<Byte>): Option<seq<Chunk>>
    decreases |bytes|
  {
    if bytes == [] then Some([]) else
      match ReadChunk(bytes)
      case None => None
      case Some((c, n)) =>
        match ReadChunks(bytes[n..])
        case None => None
        case Some(more) => Some([c] + more)
  }

  /** Chunks written one after the other are read back, types and data. */
  lemma {:induction false} ReadAllWritten(chunks: seq<Chunk>)
    requires forall c | c in chunks :: c.Writable()
    ensures ReadChunks(ChunksBytes(chunks)) == Some(chunks)
  {
    hide ReadChunk, ChunkBytes;
    if chunks != [] {
      var c, rest := chunks[0], ChunksBytes(chunks[1..]);
      ReadWritten(c, rest);
      ReadAllWritten(chunks[1..]);
      ChunkLength(c);
      assert (ChunkBytes(c) + rest)[|ChunkBytes(c)|..] == rest;
      assert [c] + chunks[1..] == chunks;
    }
  }

  lemma ChunkLength(c: Chunk)
    ensures |ChunkBytes(c)| >= 8
  {
  }

  // ---------------------------------------------------------------- rows

  /** How many bytes `n` rows of `w` bytes take */
  function Area(n: nat, w: nat): nat {
    n * w
  }

  lemma AreaNext(y: nat, w: nat, n: nat)
    requires y < n
    ensures Area(0, w) == 0 && Area(y + 1, w) == Area(y, w) + w <= Area(n, w)
  {
  }

  lemma AreaNone(w: nat)
    ensures Area(0, w) == 0
  {
  }

  /** `n` rows of `w` bytes, each after a zero filter byte */
  function Filtered(rgba: seq<Byte>, w: nat, n: nat): (raw: seq<Byte>)
    requires |rgba| == Area(n, w)
    ensures |raw| == Area(n, w + 1)
  {
    if n == 0 then [] else
      AreaNext(n - 1, w, n);
      AreaNext(n - 1, w + 1, n);
      var last := Area(n - 1, w);
      Filtered(rgba[..last], w, n - 1) + [0] + rgba[last..]
  }

  /** What a reader makes of rows whose filter must be 0 */
  function Unfiltered(raw: seq<Byte>, w: nat, n: nat): Option<seq<Byte>>
    requires |raw| == Area(n, w + 1)
  {
    if n == 0 then Some([]) else
      AreaNext(n - 1, w + 1, n);
      var last := Area(n - 1, w + 1);
      if raw[last] != 0 then None else
        match Unfiltered(raw[..last], w, n - 1)
        case None => None
        case Some(rgba) => Some(rgba + raw[last + 1..])
  }

  lemma {:induction false} UnfilteredBack(rgba: seq<Byte>, w: nat, n: nat)
    requires |rgba| == Area(n, w)
    ensures Unfiltered(Filtered(rgba, w, n), w, n) == Some(rgba)
    decreases n
  {
    hide Area;
    if n == 0 {
      AreaNone(w);
    } else {
      AreaNext(n - 1, w, n);
      AreaNext(n - 1, w + 1, n);
      var last := Area(n - 1, w);
      UnfilteredBack(rgba[..last], w, n - 1);
      var raw, start := Filtered(rgba, w, n), Area(n - 1, w + 1);
      assert raw[..start] == Filtered(rgba[..last], w, n - 1);
      assert raw[start] == 0;
      assert raw[start + 1..] == rgba[last..];
      assert rgba[..last] + rgba[last..] == rgba;
    }
  }

  /** Row `y` starts with a zero, and its bytes follow. */
  lemma {:induction false} RowReads(rgba: seq<Byte>, w: nat, n: nat, y: nat, x: nat)
    requires |rgba| == n * w && y < n && x < w
    ensures y * w + x < |rgba| && y * (w + 1) + 1 + x < |Filtered(rgba, w, n)|
    ensures Filtered(rgba, w, n)[y * (w + 1)] == 0
    ensures Filtered(rgba, w, n)[y * (w + 1) + 1 + x] == rgba[y * w + x]
    decreases n
  {
    AreaNext(y, w, n);
    AreaNext(y, w + 1, n);
    AreaNext(n - 1, w, n);
    AreaNext(n - 1, w + 1, n);
    var at, start := Area(n - 1, w), Area(n - 1, w + 1);
    assert y * w == Area(y, w) && y * (w + 1) == Area(y, w + 1) && n * w == Area(n, w);
    var before := Filtered(rgba[..at], w, n - 1);
    assert Filtered(rgba, w, n) == before + [0] + rgba[at..];
    if y < n - 1 {
      AreaNext(y, w, n - 1);
      AreaNext(y, w + 1, n - 1);
      assert (n - 1) * w == at;
      hide Area, Filtered;
      RowReads(rgba[..at], w, n - 1, y, x);
    }
  }

  /** `copy` of `w` bytes into another buffer */
  method CopyRow(rgba: array<Byte>, from: nat, w: nat, raw: array<Byte>, to: nat)
    requires rgba != raw && from + w <= rgba.Length && to + w <= raw.Length
    modifies raw
    ensures raw[..to] == old(raw[..to]) && raw[to..to + w] == rgba[from..from + w]
  {
    for i := 0 to w
      invariant forall k | 0 <= k < raw.Length ::
                  raw[k] == if to <= k < to + i then rgba[from + k - to] else old(raw[k])
    {
      raw[to + i] := rgba[from + i];
    }
  }

  /** The row loop of `encodePng`, on rows of `w` bytes. */
  method FilterRows(rgba: array<Byte>, w: nat, n: nat) returns (raw: array<Byte>)
    requires rgba.Length == Area(n, w)
    ensures fresh(raw) && raw[..] == Filtered(rgba[..], w, n)
  {
    hide Filtered, Area;
    raw := new Byte[Area(n, w + 1)](_ => 0);
    AreaNone(w);
    AreaNone(w + 1);
    FilteredNone(w, rgba[..0]);
    for y := 0 to n
      invariant Area(y, w) <= rgba.Length && Area(y, w + 1) <= raw.Length
      invariant raw[..Area(y, w + 1)] == Filtered(rgba[..Area(y, w)], w, y)
    {
      AreaNext(y, w, n);
      AreaNext(y, w + 1, n);
      FilterRow(rgba, w, y, raw);
    }
    assert raw[..raw.Length] == raw[..] && rgba[..rgba.Length] == rgba[..];
  }

  method FilterRow(rgba: array<Byte>, w: nat, y: nat, raw: array<Byte>)
    requires rgba != raw && Area(y, w) + w <= rgba.Length && Area(y, w + 1) + w + 1 <= raw.Length
    requires raw[..Area(y, w + 1)] == Filtered(rgba[..Area(y, w)], w, y)
    modifies raw
    ensures Area(y + 1, w) == Area(y, w) + w && Area(y + 1, w + 1) == Area(y, w + 1) + w + 1
    ensures raw[..Area(y + 1, w + 1)] == Filtered(rgba[..Area(y + 1, w)], w, y + 1)
  {
    hide Filtered, Area;
    FilteredNext(rgba[..], w, y);
    var rowStart, from := Area(y, w + 1), Area(y, w);
    raw[rowStart] := 0;
    assert raw[..rowStart] == old(raw[..rowStart]);
    CopyRow(rgba, from, w, raw, rowStart + 1);
    assert raw[..rowStart + 1][..rowStart] == raw[..rowStart];
    assert raw[..rowStart + 1 + w] == raw[..rowStart] + [raw[rowStart]] + raw[rowStart + 1..rowStart + 1 + w];
    assert rgba[..][..from] == rgba[..from] && rgba[..][..from + w] == rgba[..from + w];
  }

  lemma FilteredNone(w: nat, none: seq<Byte>)
    requires none == [] && Area(0, w) == 0
    ensures Filtered(none, w, 0) == []
  {
  }

  lemma FilteredNext(rgba: seq<Byte>, w: nat, y: nat)
    requires Area(y, w) + w <= |rgba|
    ensures Area(y + 1, w) == Area(y, w) + w && Area(y + 1, w + 1) == Area(y, w + 1) + w + 1
    ensures Filtered(rgba[..Area(y + 1, w)], w, y + 1) ==
            Filtered(rgba[..Area(y, w)], w, y) + [0] + rgba[Area(y, w)..Area(y, w) + w]
  {
    AreaNext(y, w, y + 1);
    AreaNext(y, w + 1, y + 1);
    hide Area;
    var some := rgba[..Area(y + 1, w)];
    assert some[..Area(y, w)] == rgba[..Area(y, w)] && some[Area(y, w)..] == rgba[Area(y, w)..Area(y, w) + w];
  }

  // ---------------------------------------------------------------- files

  function Header(size: nat): seq<Byte> {
    BigEndian(size) + BigEndian(size) + [8, 6, 0, 0, 0]
  }

  function Chunks(size: nat, idat: seq<Byte>): seq<Chunk> {
    [Chunk(IHDR, Header(size)), Chunk(IDAT, idat), Chunk(IEND, [])]
  }

  /** `encodePng`: none where a number does not fit four bytes, which `writeUInt32BE` throws on. */
  method EncodePng(size: nat, rgba: array<Byte>, deflate: seq<Byte> -> seq<Byte>) returns (r: Option<seq<Byte>>)
    requires rgba.Length == Area(size, 4 * size)
    ensures r.Some? <==> size < LIMIT && |deflate(Filtered(rgba[..], 4 * size, size))| < LIMIT
    ensures r.Some? ==> r.value == SIGNATURE + ChunksBytes(Chunks(size, deflate(Filtered(rgba[..], 4 * size, size))))
  {
    hide Steps, ChunkBytes, Filtered, BigEndian;
    var raw := FilterRows(rgba, 4 * size, size);
    if size >= LIMIT {
      return None;
    }
    var table := CrcTable();
    var ihdr := WriteChunk(table, IHDR, Header(size));
    var idat := WriteChunk(table, IDAT, deflate(raw[..]));
    var iend := WriteChunk(table, IEND, []);
    if idat.None? {
      return None;
    }
    Three(Chunks(size, deflate(raw[..])));
    return Some(SIGNATURE + (ihdr.value + idat.value + iend.value));
  }

  lemma Three(chunks: seq<Chunk>)
    requires |chunks| == 3
    ensures ChunksBytes(chunks) == ChunkBytes(chunks[0]) + ChunkBytes(chunks[1]) + ChunkBytes(chunks[2])
  {
    hide ChunkBytes;
    var two, one := chunks[1..], chunks[1..][1..];
    assert two[0] == chunks[1] && one[0] == chunks[2] && one[1..] == [];
    assert ChunksBytes(one) == ChunkBytes(chunks[2]);
    assert ChunksBytes(two) == ChunkBytes(chunks[1]) + ChunksBytes(one);
  }

  /** What a reader that knows `inflate` makes of a square 8-bit RGBA file. */
  function DecodePng(png: seq<Byte>, inflate: seq<Byte> -> seq<Byte>): Option<(nat, seq<Byte>)> {
    if |png| < 8 || png[..8] != SIGNATURE then None else
      match ReadChunks(png[8..])
      case None => None
      case Some(chunks) =>
        var size := HeaderSize(chunks);
        if size.None? || chunks != Chunks(size.value, chunks[1].data) then None
        else DecodeRows(size.value, inflate(chunks[1].data))
  }

  /** The size in the header of a file of three chunks */
  function HeaderSize(chunks: seq<Chunk>): (size: Option<nat>)
    ensures size.Some? ==> |chunks| == 3
  {
    if |chunks| != 3 || |chunks[0].data| < 4 then None else Some(FromBigEndian(chunks[0].data[..4]))
  }

  function DecodeRows(size: nat, raw: seq<Byte>): Option<(nat, seq<Byte>)> {
    if |raw| != Area(size, 4 * size + 1) then None else
      match Unfiltered(raw, 4 * size, size)
      case None => None
      case Some(rgba) => Some((size, rgba))
  }

  /** A file decodes to the raster it was encoded from. */
  lemma DecodeEncoded(size: nat, rgba: seq<Byte>, deflate: seq<Byte> -> seq<Byte>, inflate: seq<Byte> -> seq<Byte>)
    requires |rgba| == Area(size, 4 * size) && size < LIMIT
    requires forall s :: inflate(deflate(s)) == s
    requires |deflate(Filtered(rgba, 4 * size, size))| < LIMIT
    ensures var png := SIGNATURE + ChunksBytes(Chunks(size, deflate(Filtered(rgba, 4 * size, size))));
            DecodePng(png, inflate) == Some((size, rgba))
  {
    hide ReadChunks, ChunksBytes, Filtered, Unfiltered, BigEndian, FromBigEndian;
    var raw := Filtered(rgba, 4 * size, size);
    var chunks := Chunks(size, deflate(raw));
    var png := SIGNATURE + ChunksBytes(chunks);
    assert png[8..] == ChunksBytes(chunks);
    ReadAllWritten(chunks);
    BigEndianBack(size);
    assert chunks[0].data[..4] == BigEndian(size);
    UnfilteredBack(rgba, 4 * size, size);
  }

  lemma ChunkIs(c: Chunk)
    ensures var covered := c.kind + c.data;
            ChunkBytes(c) == BigEndian(|c.data|) + covered + WordBytes(BitwiseCrc(covered))
  {
    hide BigEndian, WordBytes, BitwiseCrc;
    assert BigEndian(|c.data|) + c.kind + c.data == BigEndian(|c.data|) + (c.kind + c.data);
  }

  lemma HeaderLength(size: nat)
    ensures |Header(size)| == 13
  {
  }

  lemma FourJoined(a: seq<Byte>, b: seq<Byte>, c: seq<Byte>, d: seq<Byte>)
    ensures a + (b + c + d) == a + b + c + d
  {
  }

  lemma EndReads()
    ensures ChunkBytes(Chunk(IEND, [])) == [0, 0, 0, 0, 0x49, 0x45, 0x4e, 0x44, 0xae, 0x42, 0x60, 0x82]
  {
    BigEndianReads(0);
    SmallNumber(BigEndian(0), 0);
    CrcOfEnd();
    assert WordBytes(0xae42_6082) == [0xae, 0x42, 0x60, 0x82];
    hide BigEndian, WordBytes, BitwiseCrc, Number;
    assert IEND + [] == [0x49, 0x45, 0x4e, 0x44];
  }

  /** A file, byte by byte */
  lemma FileReads(size: nat, data: seq<Byte>)
    ensures var header := [0x49, 0x48, 0x44, 0x52] + (BigEndian(size) + BigEndian(size) + [8, 6, 0, 0, 0]);
            var rows := [0x49, 0x44, 0x41, 0x54] + data;
            SIGNATURE + ChunksBytes(Chunks(size, data)) ==
            [0x89, 0x50, 0x4e, 0x47, 0x0d, 0x0a, 0x1a, 0x0a]
            + ([0, 0, 0, 13] + header + WordBytes(BitwiseCrc(header)))
            + (BigEndian(|data|) + rows + WordBytes(BitwiseCrc(rows)))
            + [0, 0, 0, 0, 0x49, 0x45, 0x4e, 0x44, 0xae, 0x42, 0x60, 0x82]
  {
    var chunks := Chunks(size, data);
    Three(chunks);
    EndReads();
    ChunkIs(chunks[0]);
    ChunkIs(chunks[1]);
    HeaderLength(size);
    BigEndianReads(13);
    SmallNumber(BigEndian(13), 13);
    FourJoined(SIGNATURE, ChunkBytes(chunks[0]), ChunkBytes(chunks[1]), ChunkBytes(chunks[2]));
    hide ChunkBytes, ChunksBytes, BigEndian, WordBytes, BitwiseCrc, Number;
  }
}
