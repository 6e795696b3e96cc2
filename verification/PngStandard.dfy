/**
 * Four rules of RFC 2083 that the validator does not apply: for each an accepted file that breaks it and
 * keeps the others, and the test per chunk that would make acceptance keep all four.
 */
module PngStandard {
  import opened Common
  import opened PngChunks
  import opened PngImage
  import opened PngValidator

  const PLTE: Kind := [0x50, 0x4C, 0x54, 0x45]

  // ---- The rules --------------------------------------------------------------------------------

  /** Section 3.2: a length is at most 2^31 - 1. */
  ghost predicate ShortChunks(cs: seq<Chunk>) {
    forall i | 0 <= i < |cs| :: |cs[i].payload| < 0x8000_0000
  }

  /** Section 3.3: bit 5 of the first type byte is clear in a critical chunk. */
  predicate Critical(kind: Kind) {
    kind[0] as int / 32 % 2 == 0
  }

  predicate Known(kind: Kind) {
    kind == IHDR || kind == PLTE || kind == IDAT || kind == IEND
  }

  ghost predicate CriticalKnown(cs: seq<Chunk>) {
    forall i | 0 <= i < |cs| :: Critical(cs[i].kind) ==> Known(cs[i].kind)
  }

  /** Section 4.1.3: the IDAT chunks appear consecutively. */
  ghost predicate ConsecutiveIdat(cs: seq<Chunk>) {
    forall i, j, k | 0 <= i < j < k < |cs| :: cs[i].kind == IDAT && cs[k].kind == IDAT ==> cs[j].kind == IDAT
  }

  predicate Indexed(cs: seq<Chunk>) {
    cs != [] && |cs[0].payload| == 13 && cs[0].payload[9] == 3
  }

  /** Section 4.1.2: with indexed colour a palette stands before the pixels. */
  ghost predicate PaletteFirst(cs: seq<Chunk>) {
    forall k | 0 <= k < |cs| && cs[k].kind == IDAT :: exists i :: 0 <= i < k && cs[i].kind == PLTE
  }

  ghost predicate KeepsRules(cs: seq<Chunk>) {
    ShortChunks(cs) && CriticalKnown(cs) && ConsecutiveIdat(cs) && (Indexed(cs) ==> PaletteFirst(cs))
  }

  // ---- The missing test -------------------------------------------------------------------------

  datatype Phase = Before | During | After

  /** What a loop over the chunks would have to remember. */
  datatype Watch = Watch(indexed: bool, palette: bool, phase: Phase)

  predicate Passable(w: Watch, c: Chunk) {
    && |c.payload| < 0x8000_0000
    && (Critical(c.kind) ==> Known(c.kind))
    && (c.kind == IDAT ==> w.phase != After && (w.indexed ==> w.palette))
  }

  function Watched(w: Watch, c: Chunk): Watch {
    Watch(w.indexed, w.palette || c.kind == PLTE,
          if c.kind == IDAT then During else if w.phase == During then After else w.phase)
  }

  predicate AllPassable(w: Watch, cs: seq<Chunk>)
    decreases |cs|
  {
    cs == [] || (Passable(w, cs[0]) && AllPassable(Watched(w, cs[0]), cs[1..]))
  }

  /** What the phase reached so far demands of the rest. */
  ghost predicate Spaced(phase: Phase, cs: seq<Chunk>) {
    match phase
    case Before => ConsecutiveIdat(cs)
    case During => forall j, k | 0 <= j < k < |cs| && cs[k].kind == IDAT :: cs[j].kind == IDAT
    case After => forall k | 0 <= k < |cs| :: cs[k].kind != IDAT
  }

  lemma SpacedStep(phase: Phase, cs: seq<Chunk>)
    requires cs != []
    ensures var next := if cs[0].kind == IDAT then During else if phase == During then After else phase;
            Spaced(phase, cs) <==> (cs[0].kind == IDAT ==> phase != After) && Spaced(next, cs[1..])
  {
    var tail := cs[1..];
    assert forall i | 0 <= i < |tail| :: tail[i] == cs[i + 1];
    assert forall i | 0 < i < |cs| :: cs[i] == tail[i - 1];
    if phase == Before {
      ConsecutiveStep(cs);
    }
  }

  lemma ConsecutiveStep(cs: seq<Chunk>)
    requires cs != []
    ensures ConsecutiveIdat(cs) <==> if cs[0].kind == IDAT then Spaced(During, cs[1..]) else ConsecutiveIdat(cs[1..])
  {
    var tail := cs[1..];
    assert forall i | 0 < i < |cs| :: cs[i] == tail[i - 1];
    if ConsecutiveIdat(cs) {
      forall i, j, k | 0 <= i < j < k < |tail| && tail[i].kind == IDAT && tail[k].kind == IDAT
        ensures tail[j].kind == IDAT
      {
        assert cs[i + 1].kind == IDAT && cs[k + 1].kind == IDAT && cs[j + 1] == tail[j];
      }
      forall j, k | 0 <= j < k < |tail| && cs[0].kind == IDAT && tail[k].kind == IDAT
        ensures tail[j].kind == IDAT
      {
        assert cs[k + 1].kind == IDAT && cs[j + 1] == tail[j];
      }
    }
  }

  lemma PaletteStep(cs: seq<Chunk>)
    requires cs != []
    ensures PaletteFirst(cs) <==> cs[0].kind != IDAT && (cs[0].kind == PLTE || PaletteFirst(cs[1..]))
  {
    var tail := cs[1..];
    assert forall i | 0 < i < |cs| :: cs[i] == tail[i - 1];
    if cs[0].kind != IDAT && cs[0].kind != PLTE {
      if PaletteFirst(cs) {
        forall k | 0 <= k < |tail| && tail[k].kind == IDAT
          ensures exists i :: 0 <= i < k && tail[i].kind == PLTE
        {
          var i :| 0 <= i < k + 1 && cs[i].kind == PLTE;
          assert tail[i - 1].kind == PLTE;
        }
      }
      if PaletteFirst(tail) {
        forall k | 0 <= k < |cs| && cs[k].kind == IDAT
          ensures exists i :: 0 <= i < k && cs[i].kind == PLTE
        {
          var i :| 0 <= i < k - 1 && tail[i].kind == PLTE;
          assert cs[i + 1].kind == PLTE;
        }
      }
    }
  }

  lemma SimpleStep(cs: seq<Chunk>)
    requires cs != []
    ensures ShortChunks(cs) <==> |cs[0].payload| < 0x8000_0000 && ShortChunks(cs[1..])
    ensures CriticalKnown(cs) <==> (Critical(cs[0].kind) ==> Known(cs[0].kind)) && CriticalKnown(cs[1..])
  {
    assert forall i | 0 < i < |cs| :: cs[i] == cs[1..][i - 1];
    assert forall i | 0 <= i < |cs| - 1 :: cs[1..][i] == cs[i + 1];
  }

  lemma {:induction false} WatchExact(w: Watch, cs: seq<Chunk>)
    requires w.phase != Before && w.indexed ==> w.palette
    ensures AllPassable(w, cs) <==>
              && ShortChunks(cs) && CriticalKnown(cs) && Spaced(w.phase, cs)
              && (w.indexed && !w.palette ==> PaletteFirst(cs))
    decreases |cs|
  {
    hide ShortChunks, CriticalKnown, Critical, Known;
    if cs == [] {
      NothingToBreak();
    } else {
      hide Spaced, PaletteFirst;
      SimpleStep(cs);
      SpacedStep(w.phase, cs);
      PaletteStep(cs);
      if Passable(w, cs[0]) {
        WatchExact(Watched(w, cs[0]), cs[1..]);
      }
    }
  }

  lemma NothingToBreak()
    ensures ShortChunks([]) && CriticalKnown([]) && PaletteFirst([])
  {
  }

  /** One test per chunk decides the four rules. */
  lemma TestDecidesRules(cs: seq<Chunk>)
    ensures KeepsRules(cs) <==> AllPassable(Watch(Indexed(cs), false, Before), cs)
  {
    WatchExact(Watch(Indexed(cs), false, Before), cs);
  }

  // ---- What acceptance says ---------------------------------------------------------------------

  /** The file encodes an image in the format the standard allows. */
  ghost predicate StrictlyValid(data: seq<Byte>, crc: Checksum, inflate: Inflate) {
    exists cs :: EncodesImage(data, cs, crc, inflate) && KeepsRules(cs)
  }

  /** An accepted file keeps the four rules exactly when the chunks it was read as pass the test. */
  lemma AcceptedIsStrictIff(data: seq<Byte>, cs: seq<Chunk>, crc: Checksum, inflate: Inflate)
    requires Verdict(data, crc, inflate).None? && IsFileOf(data, cs, crc)
    ensures StrictlyValid(data, crc, inflate) <==> AllPassable(Watch(Indexed(cs), false, Before), cs)
  {
    hide Verdict, EncodesImage, KeepsRules, AllPassable;
    TestDecidesRules(cs);
    var read := AcceptedEncodesImage(data, crc, inflate);
    OneReading(data, read, cs, crc, inflate);
    if StrictlyValid(data, crc, inflate) {
      var strict :| EncodesImage(data, strict, crc, inflate) && KeepsRules(strict);
      OneReading(data, strict, cs, crc, inflate);
    }
  }

  lemma OneReading(data: seq<Byte>, read: seq<Chunk>, cs: seq<Chunk>, crc: Checksum, inflate: Inflate)
    requires EncodesImage(data, read, crc, inflate) && IsFileOf(data, cs, crc)
    ensures read == cs
  {
    hide WellFormed, EncodeChunks;
    assert data[8..] == EncodeChunks(read, crc) && data[8..] == EncodeChunks(cs, crc);
    EncodingUnique(read, cs, crc);
  }

  // ---- Accepted files that break one rule -------------------------------------------------------

  /** One pixel of eight bits, of the given colour type. */
  function OnePixel(colour: Byte): Payload {
    [0, 0, 0, 1, 0, 0, 0, 1, 8, colour, 0, 0, 0]
  }

  /** What the decompressor must answer for a stream that holds one pixel: one row, unfiltered, to its end. */
  const ONE_SCANLINE := Inflated([0, 0], true, [])

  const GREY := Chunk(IHDR, OnePixel(0))
  const PALETTED := Chunk(IHDR, OnePixel(3))
  const END := Chunk(IEND, [])
  const TEXT := Chunk([0x74, 0x45, 0x58, 0x74], [])
  const UNKNOWN := Chunk([0x41, 0x42, 0x43, 0x44], [])

  /** A text chunk of 2^31 bytes. */
  function LongText(): Chunk {
    Chunk(TEXT.kind, seq(0x8000_0000, i => 0))
  }

  function FileOf(cs: seq<Chunk>, crc: Checksum): seq<Byte> {
    SIGNATURE + EncodeChunks(cs, crc)
  }

  lemma OnePixelHeader(colour: Byte)
    requires colour == 0 || colour == 3
    ensures Describes(OnePixel(colour), Header(1, 1, 8, false))
  {
    var p := OnePixel(colour);
    assert p[0..4] == [0, 0, 0, 1] && p[4..8] == [0, 0, 0, 1];
  }

  /** Once a list is well-formed only its IDAT bytes matter: one pixel is accepted. */
  lemma OnePixelAccepted(cs: seq<Chunk>, crc: Checksum, colour: Byte, inflate: Inflate)
    requires colour == 0 || colour == 3
    requires WellFormed(cs) && cs[0] == Chunk(IHDR, OnePixel(colour))
    requires inflate(IdatBytes(cs)) == ONE_SCANLINE
    ensures Verdict(FileOf(cs, crc), crc, inflate).None?
  {
    hide EncodeChunks, IdatBytes, WellFormed, Describes, HoldsImage, Verdict;
    OnePixelHeader(colour);
    OneScanlineFits();
    EncodedImageAccepted(FileOf(cs, crc), cs, crc, inflate);
  }

  lemma OneScanlineFits()
    ensures HoldsImage([0, 0], Header(1, 1, 8, false))
  {
    var h := Header(1, 1, 8, false);
    PassWidths(h);
    assert Passes(h) == [Extent(1, 1)] && Passes(h)[..0] == [];
    assert LineWidths([]) == [] && LineWidths(Passes(h)) == [1];
    assert Joined([[0, 0]][..0]) == [] && Joined([[0, 0]]) == [0, 0];
    assert AreScanlines([0, 0], [[0, 0]], ScanlineWidths(h, 7), 8);
  }

  /** A list of a header, something without header or end, and an end is well-formed if it has pixels. */
  lemma FramedIsWellFormed(header: Chunk, body: seq<Chunk>, at: nat)
    requires header.kind == IHDR && exists h :: Describes(header.payload, h)
    requires forall i | 0 <= i < |body| :: body[i].kind != IHDR && body[i].kind != IEND
    requires at < |body| && body[at].kind == IDAT
    ensures WellFormed([header] + body + [END])
  {
    hide Describes;
    var cs := [header] + body + [END];
    assert IHDR[1] != IEND[1];
    assert cs[at + 1].kind == IDAT;
    assert forall i | 0 < i < |cs| - 1 :: cs[i] == body[i - 1];
  }

  lemma KindsDiffer()
    ensures IDAT != IHDR && IDAT != IEND && IDAT != PLTE && IHDR != IEND
    ensures TEXT.kind != IHDR && TEXT.kind != IEND && TEXT.kind != IDAT
    ensures UNKNOWN.kind != IHDR && UNKNOWN.kind != IEND && UNKNOWN.kind != IDAT && !Known(UNKNOWN.kind)
    ensures IHDR != PLTE && IEND != PLTE
    ensures Critical(UNKNOWN.kind) && !Critical(TEXT.kind)
  {
    assert IDAT[1] != IHDR[1] && IDAT[1] != IEND[1] && IDAT[0] != PLTE[0] && IHDR[1] != IEND[1];
    assert TEXT.kind[0] != IHDR[0] && UNKNOWN.kind[0] != IHDR[0] && UNKNOWN.kind[0] != PLTE[0];
    assert IHDR[0] != PLTE[0] && IEND[0] != PLTE[0];
  }

  /** The pixel bytes of a list, chunk by chunk from the front. */
  lemma IdatOfCons(c: Chunk, cs: seq<Chunk>)
    ensures IdatBytes([c] + cs) == (if c.kind == IDAT then c.payload else []) + IdatBytes(cs)
  {
    assert ([c] + cs)[1..] == cs;
  }

  /** Chunks of another kind at the end add no pixel bytes. */
  lemma {:induction false} IdatOfSnoc(cs: seq<Chunk>, c: Chunk)
    requires c.kind != IDAT
    ensures IdatBytes(cs + [c]) == IdatBytes(cs)
  {
    if cs == [] {
      IdatOfCons(c, []);
      assert [] + [c] == [c] + [];
    } else {
      IdatOfSnoc(cs[1..], c);
      assert (cs + [c])[1..] == cs[1..] + [c];
    }
  }

  /** The frame of a file adds no pixel bytes. */
  lemma IdatOfFramed(header: Chunk, body: seq<Chunk>)
    requires header.kind == IHDR
    ensures IdatBytes([header] + body + [END]) == IdatBytes(body)
  {
    KindsDiffer();
    IdatOfSnoc([header] + body, END);
    IdatOfCons(header, body);
  }

  /** A well-formed one-pixel list around a body is accepted. */
  lemma FramedAccepted(colour: Byte, body: seq<Chunk>, at: nat, crc: Checksum, inflate: Inflate)
    requires colour == 0 || colour == 3
    requires forall i | 0 <= i < |body| :: body[i].kind != IHDR && body[i].kind != IEND
    requires at < |body| && body[at].kind == IDAT
    requires inflate(IdatBytes(body)) == ONE_SCANLINE
    ensures Verdict(FileOf([Chunk(IHDR, OnePixel(colour))] + body + [END], crc), crc, inflate).None?
  {
    hide Verdict, Describes, WellFormed, IdatBytes, OnePixel, FileOf;
    OnePixelHeader(colour);
    var header := Chunk(IHDR, OnePixel(colour));
    var cs := [header] + body + [END];
    FramedIsWellFormed(header, body, at);
    IdatOfFramed(header, body);
    assert cs[0] == header;
    OnePixelAccepted(cs, crc, colour, inflate);
  }

  /** The pixel bytes of one chunk, and of one behind a chunk of another kind. */
  lemma IdatOfOne(other: Chunk, a: Payload)
    requires other.kind != IDAT
    ensures IdatBytes([Chunk(IDAT, a)]) == a && IdatBytes([other, Chunk(IDAT, a)]) == a
  {
    IdatOfCons(Chunk(IDAT, a), []);
    IdatOfCons(other, [Chunk(IDAT, a)]);
    assert [Chunk(IDAT, a)] + [] == [Chunk(IDAT, a)];
    assert [other] + [Chunk(IDAT, a)] == [other, Chunk(IDAT, a)];
  }

  lemma IdatOfSplit(a: Payload, b: Payload)
    ensures IdatBytes([Chunk(IDAT, a), TEXT, Chunk(IDAT, b)]) == a + b
  {
    KindsDiffer();
    IdatOfOne(TEXT, b);
    IdatOfCons(Chunk(IDAT, a), [TEXT, Chunk(IDAT, b)]);
    assert [Chunk(IDAT, a)] + [TEXT, Chunk(IDAT, b)] == [Chunk(IDAT, a), TEXT, Chunk(IDAT, b)];
  }

  /** A chunk of 2^31 bytes is accepted beside the pixels. */
  lemma LongChunkAccepted(a: Payload, crc: Checksum, inflate: Inflate)
    requires inflate(a) == ONE_SCANLINE
    ensures var cs := [GREY, LongText(), Chunk(IDAT, a), END];
            && Verdict(FileOf(cs, crc), crc, inflate).None?
            && !ShortChunks(cs) && CriticalKnown(cs) && ConsecutiveIdat(cs) && !Indexed(cs)
  {
    hide Verdict, IdatBytes;
    KindsDiffer();
    var cs := [GREY, LongText(), Chunk(IDAT, a), END];
    IdatOfOne(LongText(), a);
    FramedAccepted(0, [LongText(), Chunk(IDAT, a)], 1, crc, inflate);
    assert cs == [GREY] + [LongText(), Chunk(IDAT, a)] + [END];
    assert |cs[1].payload| == 0x8000_0000;
  }

  /** A stream of pixels cut in two, with a text chunk between the IDAT chunks, is accepted. */
  lemma SplitIdatAccepted(a: Payload, b: Payload, crc: Checksum, inflate: Inflate)
    requires inflate(a + b) == ONE_SCANLINE
    ensures var cs := [GREY, Chunk(IDAT, a), TEXT, Chunk(IDAT, b), END];
            && Verdict(FileOf(cs, crc), crc, inflate).None?
            && (ShortChunks(cs) <==> |a| < 0x8000_0000 && |b| < 0x8000_0000)
            && CriticalKnown(cs) && !ConsecutiveIdat(cs) && !Indexed(cs)
  {
    hide Verdict, IdatBytes;
    KindsDiffer();
    var cs := [GREY, Chunk(IDAT, a), TEXT, Chunk(IDAT, b), END];
    IdatOfSplit(a, b);
    FramedAccepted(0, [Chunk(IDAT, a), TEXT, Chunk(IDAT, b)], 0, crc, inflate);
    assert cs == [GREY] + [Chunk(IDAT, a), TEXT, Chunk(IDAT, b)] + [END];
    assert cs[1].kind == IDAT && cs[2].kind != IDAT && cs[3].kind == IDAT;
    assert cs[1].payload == a && cs[3].payload == b;
  }

  /** A critical chunk of an unknown type is accepted. */
  lemma UnknownCriticalAccepted(a: Payload, crc: Checksum, inflate: Inflate)
    requires inflate(a) == ONE_SCANLINE
    ensures var cs := [GREY, UNKNOWN, Chunk(IDAT, a), END];
            && Verdict(FileOf(cs, crc), crc, inflate).None?
            && (ShortChunks(cs) <==> |a| < 0x8000_0000)
            && !CriticalKnown(cs) && ConsecutiveIdat(cs) && !Indexed(cs)
  {
    hide Verdict, IdatBytes;
    KindsDiffer();
    var cs := [GREY, UNKNOWN, Chunk(IDAT, a), END];
    IdatOfOne(UNKNOWN, a);
    FramedAccepted(0, [UNKNOWN, Chunk(IDAT, a)], 1, crc, inflate);
    assert cs == [GREY] + [UNKNOWN, Chunk(IDAT, a)] + [END];
    assert cs[1] == UNKNOWN && cs[2].payload == a;
  }

  /** Indexed colour without a palette is accepted. */
  lemma MissingPaletteAccepted(a: Payload, crc: Checksum, inflate: Inflate)
    requires inflate(a) == ONE_SCANLINE
    ensures var cs := [PALETTED, Chunk(IDAT, a), END];
            && Verdict(FileOf(cs, crc), crc, inflate).None?
            && (ShortChunks(cs) <==> |a| < 0x8000_0000)
            && CriticalKnown(cs) && ConsecutiveIdat(cs) && Indexed(cs) && !PaletteFirst(cs)
  {
    hide Verdict, IdatBytes;
    KindsDiffer();
    var cs := [PALETTED, Chunk(IDAT, a), END];
    IdatOfOne(TEXT, a);
    FramedAccepted(3, [Chunk(IDAT, a)], 0, crc, inflate);
    assert cs == [PALETTED] + [Chunk(IDAT, a)] + [END];
    assert cs[1].kind == IDAT && cs[1].payload == a;
  }
}
