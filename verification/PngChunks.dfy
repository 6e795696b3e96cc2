/**
 * The chunk layer of the PNG screenshot validator (`_validate_png`): big-endian
 * words, the length/type/data/checksum framing of section 3.2 of RFC 2083 and the
 * IHDR, IDAT and IEND rules the validator enforces while it walks the file.
 *
 * The checksum is a parameter: nothing here depends on its being CRC-32.
 */
module PngChunks {
  import opened Common

  newtype Byte = b: int | 0 <= b < 0x100
  type Word = n: int | 0 <= n < 0x1_0000_0000
  type Kind = s: seq<Byte> | |s| == 4 witness [0, 0, 0, 0]
  type Payload = s: seq<Byte> | |s| < 0x1_0000_0000 witness []
  type Checksum = seq<Byte> -> Word

  const SIGNATURE: seq<Byte> := [0x89, 0x50, 0x4E, 0x47, 0x0D, 0x0A, 0x1A, 0x0A]
  const IHDR: Kind := [0x49, 0x48, 0x44, 0x52]
  const IDAT: Kind := [0x49, 0x44, 0x41, 0x54]
  const IEND: Kind := [0x49, 0x45, 0x4E, 0x44]

  /** Bytes a chunk occupies besides its payload: length, type and checksum. */
  const FRAMING := 12

  datatype PngError =
    | NotPng
    | IncompleteChunk
    | InvalidCrc
    | MustStartWithIhdr
    | InvalidIhdr
    | InvalidIhdrValues
    | InvalidIend
    | MissingIdatOrIend
    | NotDecodable
    | IncompleteStream
    | InvalidFilter
    | InconsistentLength

  datatype Chunk = Chunk(kind: Kind, payload: Payload)

  datatype Header = Header(width: nat, height: nat, bitsPerPixel: nat, interlaced: bool)

  // ---- Big-endian words -------------------------------------------------------------------------

  function ToBigEndian(n: Word): (s: seq<Byte>)
    ensures |s| == 4
  {
    var high := n / 0x100;
    var higher := high / 0x100;
    [(higher / 0x100) as Byte, (higher % 0x100) as Byte, (high % 0x100) as Byte, (n % 0x100) as Byte]
  }

  function FromBigEndian(s: seq<Byte>): Word
    requires |s| == 4
  {
    ((s[0] as int * 0x100 + s[1] as int) * 0x100 + s[2] as int) * 0x100 + s[3] as int
  }

  lemma BigEndianRoundTrip(n: Word)
    ensures FromBigEndian(ToBigEndian(n)) == n
  {
  }

  lemma BigEndianUnique(s: seq<Byte>)
    requires |s| == 4
    ensures ToBigEndian(FromBigEndian(s)) == s
  {
    var higher := s[0] as int * 0x100 + s[1] as int;
    var high := higher * 0x100 + s[2] as int;
    assert FromBigEndian(s) / 0x100 == high && FromBigEndian(s) % 0x100 == s[3] as int;
    assert high / 0x100 == higher && high % 0x100 == s[2] as int;
    assert higher / 0x100 == s[0] as int && higher % 0x100 == s[1] as int;
  }

  // ---- Writing chunks ---------------------------------------------------------------------------

  function EncodeChunk(c: Chunk, crc: Checksum): (s: seq<Byte>)
    ensures |s| == FRAMING + |c.payload|
  {
    ToBigEndian(|c.payload|) + c.kind + c.payload + ToBigEndian(crc(c.kind + c.payload))
  }

  function EncodeChunks(cs: seq<Chunk>, crc: Checksum): seq<Byte> {
    if cs == [] then [] else EncodeChunk(cs[0], crc) + EncodeChunks(cs[1..], crc)
  }

  /** The concatenation of all IDAT payloads in file order. */
  function IdatBytes(cs: seq<Chunk>): seq<Byte> {
    if cs == [] then []
    else (if cs[0].kind == IDAT then cs[0].payload else []) + IdatBytes(cs[1..])
  }

  // ---- Image header -----------------------------------------------------------------------------

  const VALID_DEPTHS: map<int, set<int>> := map[
    0 := {1, 2, 4, 8, 16},
    2 := {8, 16},
    3 := {1, 2, 4, 8},
    4 := {8, 16},
    6 := {8, 16}
  ]

  const CHANNELS: map<int, nat> := map[0 := 1, 2 := 3, 3 := 1, 4 := 2, 6 := 4]

  function ParseHeader(p: Payload): (r: Result<Header, PngError>)
    requires |p| == 13
  {
    var width := FromBigEndian(p[0..4]);
    var height := FromBigEndian(p[4..8]);
    var (bitDepth, colorType) := (p[8] as int, p[9] as int);
    var (compression, filterMethod, interlace) := (p[10] as int, p[11] as int, p[12] as int);
    if width < 1 || height < 1 || width > 32768 || height > 32768 || width * height > 100_000_000
       || colorType !in VALID_DEPTHS || bitDepth !in VALID_DEPTHS[colorType]
       || compression != 0 || filterMethod != 0 || interlace !in {0, 1}
    then Err(InvalidIhdrValues)
    else Ok(Header(width, height, bitDepth * CHANNELS[colorType], interlace == 1))
  }

  // ---- The header as the standard describes it --------------------------------------------------

  /** Section 2.1 of RFC 2083: the most significant byte comes first. */
  function Number(s: seq<Byte>): nat
    requires |s| == 4
  {
    s[0] as int * 0x100_0000 + s[1] as int * 0x1_0000 + s[2] as int * 0x100 + s[3] as int
  }

  lemma BigEndianMeans(s: seq<Byte>)
    requires |s| == 4
    ensures FromBigEndian(s) == Number(s)
  {
  }

  /** Section 4.1.1: a colour type is the sum of 1 for a palette, 2 for colour and 4 for an alpha channel. */
  predicate UsesPalette(colour: int) {
    colour % 2 == 1
  }

  predicate UsesColour(colour: int) {
    colour / 2 % 2 == 1
  }

  predicate HasAlpha(colour: int) {
    colour / 4 % 2 == 1
  }

  /** Samples a pixel: an index, or grey or three colours, and alpha. */
  function Samples(colour: int): nat {
    if UsesPalette(colour) then 1 else (if UsesColour(colour) then 3 else 1) + (if HasAlpha(colour) then 1 else 0)
  }

  /** A palette is of colours without alpha; depths below 8 need one sample a pixel, 16 none from a palette. */
  predicate DepthFits(colour: int, depth: int) {
    && 0 <= colour < 8 && (UsesPalette(colour) ==> UsesColour(colour) && !HasAlpha(colour))
    && depth in {1, 2, 4, 8, 16}
    && (depth < 8 ==> Samples(colour) == 1) && (depth == 16 ==> !UsesPalette(colour))
  }

  /** The thirteen bytes say this, and the validator's limits on the size are kept. */
  ghost predicate Describes(p: Payload, h: Header) {
    && |p| == 13
    && h.width == Number(p[0..4]) && h.height == Number(p[4..8])
    && 1 <= h.width <= 32768 && 1 <= h.height <= 32768 && h.width * h.height <= 100_000_000
    && DepthFits(p[9] as int, p[8] as int) && h.bitsPerPixel == p[8] as int * Samples(p[9] as int)
    && p[10] == 0 && p[11] == 0
    && p[12] <= 1 && (h.interlaced <==> p[12] == 1)
  }

  /** The validator reads from a header exactly what the standard says it means. */
  lemma HeaderMeaning(p: Payload, h: Header)
    requires |p| == 13
    ensures ParseHeader(p) == Ok(h) <==> Describes(p, h)
    ensures ParseHeader(p).Ok? <==> exists k :: Describes(p, k)
  {
    forall k
      ensures ParseHeader(p) == Ok(k) <==> Describes(p, k)
    {
      HeaderFields(p, k);
    }
    if ParseHeader(p).Ok? {
      assert Describes(p, ParseHeader(p).value);
    }
  }

  lemma HeaderFields(p: Payload, h: Header)
    requires |p| == 13
    ensures ParseHeader(p) == Ok(h) <==> Describes(p, h)
  {
    hide FromBigEndian, Number, DepthFits, Samples;
    BigEndianMeans(p[0..4]);
    BigEndianMeans(p[4..8]);
    DepthTable(p[9] as int, p[8] as int);
  }

  /** The two tables of the validator, entry by entry, follow from the bits of the colour type. */
  lemma DepthTable(colour: int, depth: int)
    ensures colour in VALID_DEPTHS && depth in VALID_DEPTHS[colour] <==> DepthFits(colour, depth)
    ensures DepthFits(colour, depth) ==> colour in CHANNELS && CHANNELS[colour] == Samples(colour)
  {
    if 0 <= colour < 8 {
      assert colour in {0, 1, 2, 3, 4, 5, 6, 7};
    }
  }

  // ---- Reading chunks ---------------------------------------------------------------------------

  /** One iteration's framing: decode the chunk at `offset` and check its checksum. */
  function ReadChunk(data: seq<Byte>, offset: nat, crc: Checksum): (r: Result<Chunk, PngError>)
    requires offset < |data|
    ensures r.Ok? ==> offset + FRAMING + |r.value.payload| <= |data|
  {
    if |data| - offset < FRAMING then Err(IncompleteChunk) else
      var length := FromBigEndian(data[offset..offset + 4]);
      if offset + FRAMING + length > |data| then Err(IncompleteChunk) else
        var kind := data[offset + 4..offset + 8];
        var payload := data[offset + 8..offset + 8 + length];
        var expected := FromBigEndian(data[offset + 8 + length..offset + FRAMING + length]);
        if crc(kind + payload) != expected then Err(InvalidCrc) else Ok(Chunk(kind, payload))
  }

  /** The validator's loop variables. */
  datatype Scan = Scan(kinds: seq<Kind>, idat: seq<Byte>, header: Option<Header>)

  const START := Scan([], [], None)

  /** What the loop does with a chunk that decoded; `last` says it ends the file. */
  function Admit(s: Scan, c: Chunk, last: bool): (r: Result<Scan, PngError>) {
    var kinds := s.kinds + [c.kind];
    if s.kinds == [] && (c.kind != IHDR || |c.payload| != 13) then Err(MustStartWithIhdr)
    else if c.kind == IHDR then
      if s.kinds != [] || |c.payload| != 13 then Err(InvalidIhdr)
      else
        var h := ParseHeader(c.payload);
        if h.Err? then Err(h.error) else Ok(s.(kinds := kinds, header := Some(h.value)))
    else if c.kind == IDAT then Ok(s.(kinds := kinds, idat := s.idat + c.payload))
    else if c.kind == IEND && (c.payload != [] || !last) then Err(InvalidIend)
    else Ok(s.(kinds := kinds))
  }

  /** The whole loop from `offset` on. */
  function ScanFrom(data: seq<Byte>, offset: nat, s: Scan, crc: Checksum): (r: Result<Scan, PngError>)
    requires offset <= |data|
    decreases |data| - offset
  {
    if offset == |data| then Ok(s) else
      var c := ReadChunk(data, offset, crc);
      if c.Err? then Err(c.error) else
        var next := offset + FRAMING + |c.value.payload|;
        var t := Admit(s, c.value, next == |data|);
        if t.Err? then t else ScanFrom(data, next, t.value, crc)
  }

  /** The test made once the loop has run off the end of the file. */
  predicate Complete(s: Scan) {
    s.kinds != [] && s.kinds[|s.kinds| - 1] == IEND && IDAT in s.kinds
  }

  // ---- What an accepted chunk list is -----------------------------------------------------------

  /** No offset and no loop: the chunk list of a PNG file as the validator understands it. */
  ghost predicate WellFormed(cs: seq<Chunk>) {
    && cs != []
    && cs[0].kind == IHDR && (exists h :: Describes(cs[0].payload, h))
    && (forall i | 0 < i < |cs| :: cs[i].kind != IHDR)
    && (forall i | 0 <= i < |cs| :: cs[i].kind == IEND <==> i == |cs| - 1)
    && cs[|cs| - 1].payload == []
    && (exists i | 0 <= i < |cs| :: cs[i].kind == IDAT)
  }

  function Kinds(cs: seq<Chunk>): (ks: seq<Kind>)
    ensures |ks| == |cs| && forall i | 0 <= i < |cs| :: ks[i] == cs[i].kind
  {
    if cs == [] then [] else [cs[0].kind] + Kinds(cs[1..])
  }

  /** The four fields of an encoded chunk, by position. */
  lemma EncodedFields(c: Chunk, crc: Checksum)
    ensures var (e, n) := (EncodeChunk(c, crc), |c.payload|);
            && e[0..4] == ToBigEndian(n) && e[4..8] == c.kind
            && e[8..8 + n] == c.payload && e[8 + n..FRAMING + n] == ToBigEndian(crc(c.kind + c.payload))
  {
  }

  /** A frame with the fields of an encoded chunk is that encoded chunk. */
  lemma FieldsEncode(f: seq<Byte>, c: Chunk, crc: Checksum)
    requires |f| == FRAMING + |c.payload|
    requires f[0..4] == ToBigEndian(|c.payload|) && f[4..8] == c.kind
    requires f[8..8 + |c.payload|] == c.payload
    requires f[8 + |c.payload|..FRAMING + |c.payload|] == ToBigEndian(crc(c.kind + c.payload))
    ensures f == EncodeChunk(c, crc)
  {
    var n := |c.payload|;
    assert f == f[0..4] + f[4..8] + f[8..8 + n] + f[8 + n..FRAMING + n];
  }

  /** Slicing a slice. */
  lemma SliceOfSlice(data: seq<Byte>, offset: nat, end: nat, i: nat, j: nat)
    requires offset <= end <= |data| && i <= j <= end - offset
    ensures data[offset..end][i..j] == data[offset + i..offset + j]
  {
    var (a, b) := (data[offset..end][i..j], data[offset + i..offset + j]);
    assert forall k | 0 <= k < j - i :: a[k] == b[k];
  }

  /** The frame of length 12 + n at `offset`, cut into its fields. */
  lemma FrameFields(data: seq<Byte>, offset: nat, n: nat)
    requires offset + FRAMING + n <= |data|
    ensures var f := data[offset..offset + FRAMING + n];
            && f[0..4] == data[offset..offset + 4] && f[4..8] == data[offset + 4..offset + 8]
            && f[8..8 + n] == data[offset + 8..offset + 8 + n]
            && f[8 + n..FRAMING + n] == data[offset + 8 + n..offset + FRAMING + n]
  {
    var end := offset + FRAMING + n;
    SliceOfSlice(data, offset, end, 0, 4);
    SliceOfSlice(data, offset, end, 4, 8);
    SliceOfSlice(data, offset, end, 8, 8 + n);
    SliceOfSlice(data, offset, end, 8 + n, FRAMING + n);
  }

  /** `c` stands at `offset`, whole and with its checksum. */
  ghost predicate StandsAt(data: seq<Byte>, offset: nat, c: Chunk, crc: Checksum) {
    && offset + FRAMING + |c.payload| <= |data|
    && data[offset..offset + FRAMING + |c.payload|] == EncodeChunk(c, crc)
  }

  /** The reader returns `c` exactly when the encoding of `c` stands at `offset`. */
  lemma ReadChunkDecodes(data: seq<Byte>, offset: nat, c: Chunk, crc: Checksum)
    requires offset < |data|
    ensures ReadChunk(data, offset, crc) == Ok(c) <==> StandsAt(data, offset, c, crc)
  {
    var n := |c.payload|;
    if ReadChunk(data, offset, crc) == Ok(c) {
      ReadChunkSound(data, offset, crc);
    }
    if StandsAt(data, offset, c, crc) {
      ReadChunkComplete(data, offset, c, crc);
    }
  }

  lemma ReadChunkSound(data: seq<Byte>, offset: nat, crc: Checksum)
    requires offset < |data| && ReadChunk(data, offset, crc).Ok?
    ensures StandsAt(data, offset, ReadChunk(data, offset, crc).value, crc)
  {
    var c := ReadChunk(data, offset, crc).value;
    var n := |c.payload|;
    BigEndianUnique(data[offset..offset + 4]);
    BigEndianUnique(data[offset + 8 + n..offset + FRAMING + n]);
    FrameFields(data, offset, n);
    FieldsEncode(data[offset..offset + FRAMING + n], c, crc);
  }

  lemma ReadChunkComplete(data: seq<Byte>, offset: nat, c: Chunk, crc: Checksum)
    requires offset < |data| && StandsAt(data, offset, c, crc)
    ensures ReadChunk(data, offset, crc) == Ok(c)
  {
    EncodedFields(c, crc);
    FrameFields(data, offset, |c.payload|);
    BigEndianRoundTrip(|c.payload|);
    BigEndianRoundTrip(crc(c.kind + c.payload));
  }

  /** Folding `Admit` over a list takes `s` to `t`; `more` says further bytes follow the list. */
  ghost predicate Follows(s: Scan, cs: seq<Chunk>, more: bool, t: Scan)
    decreases |cs|
  {
    if cs == [] then s == t
    else
      var a := Admit(s, cs[0], |cs| == 1 && !more);
      a.Ok? && Follows(a.value, cs[1..], more, t)
  }

  /** What is wrong with the chunk at `offset` for a loop in state `s`, if anything is. */
  function Fault(data: seq<Byte>, offset: nat, s: Scan, crc: Checksum): Option<PngError>
    requires offset < |data|
  {
    var c := ReadChunk(data, offset, crc);
    if c.Err? then Some(c.error) else
      var a := Admit(s, c.value, offset + FRAMING + |c.value.payload| == |data|);
      if a.Err? then Some(a.error) else None
  }

  /**
   * Every scan decodes a run of chunks it admits: to the end of the file when it
   * succeeds, and up to the first faulty chunk, whose fault it reports, when it fails.
   */
  lemma {:induction false} ScanReads(data: seq<Byte>, offset: nat, s: Scan, crc: Checksum)
    returns (cs: seq<Chunk>, t: Scan, stop: nat)
    requires offset <= |data|
    ensures offset <= stop <= |data| && data[offset..stop] == EncodeChunks(cs, crc)
    ensures Follows(s, cs, stop < |data|, t)
    ensures var r := ScanFrom(data, offset, s, crc);
            if stop == |data| then r == Ok(t)
            else Fault(data, stop, t, crc).Some? && r == Err(Fault(data, stop, t, crc).value)
    decreases |data| - offset
  {
    hide ReadChunk, Admit, EncodeChunk;
    if offset == |data| || Fault(data, offset, s, crc).Some? {
      cs, t, stop := [], s, offset;
    } else {
      var c := ReadChunk(data, offset, crc).value;
      var next := offset + FRAMING + |c.payload|;
      ReadChunkDecodes(data, offset, c, crc);
      var a := Admit(s, c, next == |data|).value;
      var rest;
      rest, t, stop := ScanReads(data, next, a, crc);
      cs := [c] + rest;
      assert data[offset..stop] == data[offset..next] + data[next..stop];
      assert cs[1..] == rest;
      EncodingLength(rest, crc);
    }
  }

  lemma {:induction false} EncodingLength(cs: seq<Chunk>, crc: Checksum)
    ensures |EncodeChunks(cs, crc)| == 0 <==> cs == []
  {
    if cs != [] {
      assert |EncodeChunk(cs[0], crc)| >= FRAMING;
    }
  }

  /** Every admissible chunk list, once written, is scanned back to the same result. */
  lemma {:induction false} EncodingScans(data: seq<Byte>, offset: nat, s: Scan, cs: seq<Chunk>, t: Scan, crc: Checksum)
    requires offset <= |data| && data[offset..] == EncodeChunks(cs, crc)
    requires Follows(s, cs, false, t)
    ensures ScanFrom(data, offset, s, crc) == Ok(t)
    decreases |cs|
  {
    hide ReadChunk, Admit, EncodeChunk;
    EncodingLength(cs, crc);
    if cs != [] {
      var next := offset + FRAMING + |cs[0].payload|;
      var e := EncodeChunk(cs[0], crc);
      assert data[offset..] == e + EncodeChunks(cs[1..], crc);
      assert data[offset..next] == data[offset..][..|e|] == e;
      assert data[next..] == data[offset..][|e|..] == EncodeChunks(cs[1..], crc);
      ReadChunkDecodes(data, offset, cs[0], crc);
      EncodingLength(cs[1..], crc);
      EncodingScans(data, next, Admit(s, cs[0], |cs| == 1).value, cs[1..], t, crc);
    }
  }

  /** What a chunk after the header leaves behind. */
  function AfterChunk(s: Scan, c: Chunk): Scan {
    Scan(s.kinds + [c.kind], s.idat + (if c.kind == IDAT then c.payload else []), s.header)
  }

  /** `Admit` once the header has been seen, without the header branch. */
  lemma AdmitLater(s: Scan, c: Chunk, last: bool)
    requires s.kinds != []
    ensures Admit(s, c, last).Ok? <==> c.kind != IHDR && (c.kind == IEND ==> last && c.payload == [])
    ensures var r := Admit(s, c, last);
            r.Ok? ==> r.value == AfterChunk(s, c)
  {
    hide ParseHeader;
    assert s.idat + [] == s.idat;
  }

  /** `Admit` on the first chunk of the file. */
  lemma AdmitFirst(c: Chunk, last: bool)
    ensures Admit(START, c, last).Ok? <==> c.kind == IHDR && |c.payload| == 13 && ParseHeader(c.payload).Ok?
    ensures var r := Admit(START, c, last);
            r.Ok? ==> r.value == Scan([c.kind], [], Some(ParseHeader(c.payload).value))
  {
    hide ParseHeader;
    assert START.kinds + [c.kind] == [c.kind];
  }

  /** After the header: no second IHDR, and IEND only as an empty last chunk. */
  ghost predicate TailOk(cs: seq<Chunk>) {
    && (forall i | 0 <= i < |cs| :: cs[i].kind != IHDR)
    && (forall i | 0 <= i < |cs| && cs[i].kind == IEND :: i == |cs| - 1 && cs[i].payload == [])
  }

  lemma TailOkStep(cs: seq<Chunk>)
    ensures cs == [] ==> TailOk(cs)
    ensures cs != [] ==>
      (TailOk(cs) <==> cs[0].kind != IHDR && (cs[0].kind == IEND ==> |cs| == 1 && cs[0].payload == [])
                       && TailOk(cs[1..]))
  {
    assert forall i | 0 < i < |cs| :: cs[i] == cs[1..][i - 1];
    assert forall i | 0 <= i < |cs| - 1 :: cs[1..][i] == cs[i + 1];
  }

  /** What the loop variables become over a tail. */
  function AfterTail(s: Scan, cs: seq<Chunk>): Scan {
    Scan(s.kinds + Kinds(cs), s.idat + IdatBytes(cs), s.header)
  }

  lemma AfterTailStep(s: Scan, cs: seq<Chunk>)
    ensures cs == [] ==> AfterTail(s, cs) == s
    ensures cs != [] ==> AfterTail(AfterChunk(s, cs[0]), cs[1..]) == AfterTail(s, cs)
  {
    if cs == [] {
      assert s.kinds + [] == s.kinds && s.idat + [] == s.idat;
    } else {
      ConcatAssociative(s.kinds, [cs[0].kind], Kinds(cs[1..]));
      ConcatAssociative(s.idat, if cs[0].kind == IDAT then cs[0].payload else [], IdatBytes(cs[1..]));
    }
  }

  lemma {:induction false} TailFollows(s: Scan, cs: seq<Chunk>, t: Scan)
    requires s.kinds != []
    ensures Follows(s, cs, false, t) <==> TailOk(cs) && t == AfterTail(s, cs)
    decreases |cs|
  {
    hide Admit, TailOk, AfterTail;
    TailOkStep(cs);
    AfterTailStep(s, cs);
    if cs != [] {
      AdmitLater(s, cs[0], |cs| == 1);
      if Admit(s, cs[0], |cs| == 1).Ok? {
        TailFollows(AfterChunk(s, cs[0]), cs[1..], t);
      }
    }
  }

  /** What the scan of an accepted file holds. */
  ghost function Scanned(cs: seq<Chunk>): Scan
    requires WellFormed(cs)
    ensures |cs[0].payload| == 13 && ParseHeader(cs[0].payload).Ok?
  {
    var h :| Describes(cs[0].payload, h);
    HeaderMeaning(cs[0].payload, h);
    Scan(Kinds(cs), IdatBytes(cs), Some(ParseHeader(cs[0].payload).value))
  }

  lemma HasKind(cs: seq<Chunk>, k: Kind)
    ensures (exists i | 0 <= i < |cs| :: cs[i].kind == k) <==> k in Kinds(cs)
  {
    hide Kinds;
    var ks := Kinds(cs);
    assert forall i | 0 <= i < |cs| :: ks[i] == cs[i].kind;
  }

  lemma TailOkOf(cs: seq<Chunk>)
    requires cs != []
    ensures TailOk(cs[1..]) <==> forall i | 0 < i < |cs| ::
      cs[i].kind != IHDR && (cs[i].kind == IEND ==> i == |cs| - 1 && cs[i].payload == [])
  {
    var tail := cs[1..];
    assert forall i | 0 < i < |cs| :: cs[i] == tail[i - 1];
    assert forall i | 0 <= i < |cs| - 1 :: tail[i] == cs[i + 1];
  }

  lemma HeaderRead(p: Payload)
    ensures (exists h :: Describes(p, h)) <==> |p| == 13 && ParseHeader(p).Ok?
  {
    if |p| == 13 {
      HeaderMeaning(p, Header(0, 0, 0, false));
    }
  }

  lemma WellFormedStep(cs: seq<Chunk>)
    requires cs != []
    ensures WellFormed(cs)
      <==> && cs[0].kind == IHDR && |cs[0].payload| == 13 && ParseHeader(cs[0].payload).Ok?
           && TailOk(cs[1..]) && cs[|cs| - 1].kind == IEND && IDAT in Kinds(cs)
  {
    hide ParseHeader, Kinds, TailOk, Describes;
    HeaderRead(cs[0].payload);
    HasKind(cs, IDAT);
    TailOkOf(cs);
  }

  /** After the header chunk the tail brings everything a whole scan holds. */
  lemma AfterHeader(cs: seq<Chunk>, a: Scan)
    requires cs != [] && cs[0].kind == IHDR && a.kinds == [cs[0].kind] && a.idat == []
    ensures AfterTail(a, cs[1..]) == Scan(Kinds(cs), IdatBytes(cs), a.header)
    ensures Kinds(cs)[|cs| - 1] == cs[|cs| - 1].kind
  {
    assert a.idat + IdatBytes(cs[1..]) == IdatBytes(cs);
  }

  /** The loop followed by its completeness test accepts exactly the well-formed lists. */
  lemma WellFormedFollows(cs: seq<Chunk>, t: Scan)
    ensures Follows(START, cs, false, t) && Complete(t) <==> WellFormed(cs) && t == Scanned(cs)
  {
    if cs != [] {
      AdmitFirst(cs[0], |cs| == 1);
      WellFormedStep(cs);
      hide Admit, ParseHeader, TailOk, WellFormed, IdatBytes, Kinds, AfterTail;
      if Admit(START, cs[0], |cs| == 1).Ok? {
        var a := Admit(START, cs[0], |cs| == 1).value;
        TailFollows(a, cs[1..], t);
        AfterHeader(cs, a);
      }
    }
  }

  // ---- What each objection means ----------------------------------------------------------------

  predicate Spells(kind: Kind, text: string) {
    |text| == 4 && forall i | 0 <= i < 4 :: kind[i] as int == text[i] as int
  }

  /** Section 3.1 gives the signature in decimal, section 4.1 the chunk types as ASCII letters. */
  lemma NamesAreStandard()
    ensures SIGNATURE == [137, 80, 78, 71, 13, 10, 26, 10]
    ensures Spells(IHDR, "IHDR") && Spells(IDAT, "IDAT") && Spells(IEND, "IEND")
  {
  }

  /** The bytes from `offset` on hold a whole chunk, as long as its first four bytes say. */
  predicate Whole(data: seq<Byte>, offset: nat)
    requires offset <= |data|
  {
    var rest := data[offset..];
    |rest| >= 12 && |rest| >= 12 + Number(rest[0..4])
  }

  /** Its last four bytes are the checksum of type and data. */
  predicate Sealed(data: seq<Byte>, offset: nat, crc: Checksum)
    requires offset <= |data| && Whole(data, offset)
  {
    var rest := data[offset..];
    var n := Number(rest[0..4]);
    crc(rest[4..8 + n]) == Number(rest[8 + n..12 + n])
  }

  /** When which objection is raised, in terms of the bytes at the offset and of what was read before. */
  lemma FaultMeaning(data: seq<Byte>, offset: nat, s: Scan, crc: Checksum)
    requires offset < |data|
    ensures Fault(data, offset, s, crc) == Some(IncompleteChunk) <==> !Whole(data, offset)
    ensures Fault(data, offset, s, crc) == Some(InvalidCrc) <==> Whole(data, offset) && !Sealed(data, offset, crc)
    ensures Whole(data, offset) && Sealed(data, offset, crc) ==>
      var rest := data[offset..];
      var n := Number(rest[0..4]);
      var (kind, payload, first, last) := (rest[4..8], rest[8..8 + n], s.kinds == [], |rest| == 12 + n);
      var fault := Fault(data, offset, s, crc);
      && (fault == Some(MustStartWithIhdr) <==> first && (kind != IHDR || n != 13))
      && (fault == Some(InvalidIhdr) <==> !first && kind == IHDR)
      && (fault == Some(InvalidIhdrValues) <==> first && kind == IHDR && n == 13 && !exists h :: Describes(payload, h))
      && (fault == Some(InvalidIend) <==> !first && kind == IEND && (n != 0 || !last))
      && (fault.None? <==> if first then kind == IHDR && n == 13 && (exists h :: Describes(payload, h))
                           else kind != IHDR && (kind == IEND ==> n == 0 && last))
  {
    hide ParseHeader, Describes, Admit;
    var rest := data[offset..];
    if |rest| >= 12 {
      RestFields(data, offset, 0);
      BigEndianMeans(rest[0..4]);
      var n := Number(rest[0..4]);
      if |rest| >= 12 + n {
        RestFields(data, offset, n);
        BigEndianMeans(rest[8 + n..12 + n]);
        assert rest[4..8] + rest[8..8 + n] == rest[4..8 + n];
        if Sealed(data, offset, crc) {
          var c := Chunk(rest[4..8], rest[8..8 + n]);
          assert ReadChunk(data, offset, crc) == Ok(c);
          AdmitObjects(s, c, |rest| == 12 + n);
        }
      }
    }
  }

  /** The fields of the chunk at an offset, counted from there. */
  lemma RestFields(data: seq<Byte>, offset: nat, n: nat)
    requires offset + FRAMING + n <= |data|
    ensures var rest := data[offset..];
            && rest[0..4] == data[offset..offset + 4] && rest[4..8] == data[offset + 4..offset + 8]
            && rest[8..8 + n] == data[offset + 8..offset + 8 + n]
            && rest[8 + n..FRAMING + n] == data[offset + 8 + n..offset + FRAMING + n]
  {
  }

  lemma AdmitObjects(s: Scan, c: Chunk, last: bool)
    ensures var (first, n, a) := (s.kinds == [], |c.payload|, Admit(s, c, last));
            && (a == Err(MustStartWithIhdr) <==> first && (c.kind != IHDR || n != 13))
            && (a == Err(InvalidIhdr) <==> !first && c.kind == IHDR)
            && (a == Err(InvalidIhdrValues) <==>
                  first && c.kind == IHDR && n == 13 && !exists h :: Describes(c.payload, h))
            && (a == Err(InvalidIend) <==> !first && c.kind == IEND && (n != 0 || !last))
            && (a.Ok? <==> if first then c.kind == IHDR && n == 13 && (exists h :: Describes(c.payload, h))
                           else c.kind != IHDR && (c.kind == IEND ==> n == 0 && last))
  {
    hide Describes;
    assert IHDR[1] != IEND[1] && IHDR[1] != IDAT[1] && IDAT[1] != IEND[1];
    HeaderRead(c.payload);
  }

  // ---- Main results -----------------------------------------------------------------------------

  /** The scan of a file: everything after the signature. */
  function ScanFile(data: seq<Byte>, crc: Checksum): Result<Scan, PngError>
    requires |data| >= 8
  {
    ScanFrom(data, 8, START, crc)
  }

  /** `data` is the signature followed by the encoding of `cs`. */
  ghost predicate IsFileOf(data: seq<Byte>, cs: seq<Chunk>, crc: Checksum) {
    data == SIGNATURE + EncodeChunks(cs, crc)
  }

  /** Parsing then writing: an accepted file is the encoding of a well-formed list. */
  lemma AcceptedFileReencodes(data: seq<Byte>, crc: Checksum) returns (cs: seq<Chunk>)
    requires SIGNATURE <= data && ScanFile(data, crc).Ok? && Complete(ScanFile(data, crc).value)
    ensures IsFileOf(data, cs, crc) && WellFormed(cs) && ScanFile(data, crc).value == Scanned(cs)
  {
    hide ReadChunk, Admit, EncodeChunk;
    var t, stop;
    cs, t, stop := ScanReads(data, 8, START, crc);
    WellFormedFollows(cs, t);
    assert data == data[..8] + data[8..stop];
  }

  /** Writing then parsing: every well-formed list is read back, IDAT bytes in order. */
  lemma EncodedFileParses(data: seq<Byte>, cs: seq<Chunk>, crc: Checksum)
    requires WellFormed(cs) && IsFileOf(data, cs, crc)
    ensures |data| >= 8
    ensures ScanFile(data, crc) == Ok(Scanned(cs))
    ensures Complete(ScanFile(data, crc).value)
  {
    var t := Scanned(cs);
    WellFormedFollows(cs, t);
    assert data[8..] == EncodeChunks(cs, crc);
    EncodingScans(data, 8, START, cs, t, crc);
  }

  /** A byte string is the encoding of at most one chunk list, well-formed or not. */
  lemma {:induction false} EncodingUnique(a: seq<Chunk>, b: seq<Chunk>, crc: Checksum)
    requires EncodeChunks(a, crc) == EncodeChunks(b, crc)
    ensures a == b
    decreases |a|
  {
    EncodingLength(a, crc);
    EncodingLength(b, crc);
    if a != [] {
      var data := EncodeChunks(a, crc);
      var (m, n) := (|EncodeChunk(a[0], crc)|, |EncodeChunk(b[0], crc)|);
      assert data[0..m] == EncodeChunk(a[0], crc) && data[0..n] == EncodeChunk(b[0], crc);
      ReadChunkDecodes(data, 0, a[0], crc);
      ReadChunkDecodes(data, 0, b[0], crc);
      assert data[m..] == EncodeChunks(a[1..], crc) && data[m..] == EncodeChunks(b[1..], crc);
      EncodingUnique(a[1..], b[1..], crc);
    }
  }
}
