/**
 * `_validate_png` itself. Checksum and decompressor are parameters, so the result
 * holds for CRC-32 and zlib and for any replacement.
 */
module PngValidator {
  import opened Common
  import opened PngChunks
  import opened PngImage

  /** What the decompressor object reports: a zlib error, or bytes, end-of-stream flag and leftovers. */
  datatype Inflated = Corrupt | Inflated(decoded: seq<Byte>, eof: bool, unused: seq<Byte>)

  type Inflate = seq<Byte> -> Inflated

  /** The compressed stream decodes, to its end and with nothing after it, to the scanlines of the image. */
  ghost predicate Pictures(stream: seq<Byte>, h: Header, inflate: Inflate) {
    var pixels := inflate(stream);
    pixels.Inflated? && pixels.eof && pixels.unused == [] && HoldsImage(pixels.decoded, h)
  }

  /**
   * What a file must be: the signature and a well-formed list of chunks, whose header describes an image
   * and whose pixel data hold it. Neither the loops of the validator nor its tables occur here.
   */
  ghost predicate EncodesImage(data: seq<Byte>, cs: seq<Chunk>, crc: Checksum, inflate: Inflate) {
    && WellFormed(cs)
    && IsFileOf(data, cs, crc)
    && exists h :: Describes(cs[0].payload, h) && Pictures(IdatBytes(cs), h, inflate)
  }

  ghost predicate IsValidPng(data: seq<Byte>, crc: Checksum, inflate: Inflate) {
    exists cs :: EncodesImage(data, cs, crc, inflate)
  }

  /** The verdict after the chunk loop. */
  ghost function ImageVerdict(s: Scan, inflate: Inflate): Option<PngError> {
    if !Complete(s) then Some(MissingIdatOrIend) else
      var pixels := inflate(s.idat);
      if pixels.Corrupt? then Some(NotDecodable)
      else if !pixels.eof || pixels.unused != [] || s.header.None? then Some(IncompleteStream)
      else
        var h := s.header.value;
        ScanlineVerdict(pixels.decoded, LineWidths(Passes(h)), h.bitsPerPixel)
  }

  ghost function Verdict(data: seq<Byte>, crc: Checksum, inflate: Inflate): Option<PngError> {
    if !(SIGNATURE <= data) then Some(NotPng) else
      var s := ScanFile(data, crc);
      if s.Err? then Some(s.error) else ImageVerdict(s.value, inflate)
  }

  lemma AcceptedEncodesImage(data: seq<Byte>, crc: Checksum, inflate: Inflate) returns (cs: seq<Chunk>)
    requires Verdict(data, crc, inflate).None?
    ensures EncodesImage(data, cs, crc, inflate)
  {
    hide ReadChunk, Admit, EncodeChunks, ScanlineVerdict, LineWidths, Passes, HoldsImage, Describes, ParseHeader,
         WellFormed;
    cs := AcceptedFileReencodes(data, crc);
    HeaderOf(cs);
    var h := ParseHeader(cs[0].payload).value;
    assert Describes(cs[0].payload, h);
    CheckedMeansHolds(inflate(IdatBytes(cs)).decoded, h);
  }

  lemma HeaderOf(cs: seq<Chunk>)
    requires WellFormed(cs)
    ensures |cs[0].payload| == 13 && ParseHeader(cs[0].payload).Ok?
    ensures var h := ParseHeader(cs[0].payload).value;
            h.width > 0 && h.height > 0 && forall k :: Describes(cs[0].payload, k) <==> k == h
  {
    hide Describes, ParseHeader;
    HeaderRead(cs[0].payload);
    var h := ParseHeader(cs[0].payload).value;
    forall k
      ensures Describes(cs[0].payload, k) <==> k == h
    {
      HeaderMeaning(cs[0].payload, k);
    }
    SizePositive(cs[0].payload, h);
  }

  lemma SizePositive(p: Payload, h: Header)
    requires Describes(p, h)
    ensures h.width > 0 && h.height > 0
  {
  }

  lemma EncodedImageAccepted(data: seq<Byte>, cs: seq<Chunk>, crc: Checksum, inflate: Inflate)
    requires EncodesImage(data, cs, crc, inflate)
    ensures Verdict(data, crc, inflate).None?
  {
    hide ReadChunk, Admit, EncodeChunks, ScanlineVerdict, LineWidths, Passes, HoldsImage, Describes, ParseHeader,
         WellFormed;
    EncodedFileParses(data, cs, crc);
    HeaderOf(cs);
    CheckedMeansHolds(inflate(IdatBytes(cs)).decoded, ParseHeader(cs[0].payload).value);
  }

  /** The validator accepts a byte string exactly when it encodes an image. */
  lemma AcceptedIffValid(data: seq<Byte>, crc: Checksum, inflate: Inflate)
    ensures Verdict(data, crc, inflate).None? <==> IsValidPng(data, crc, inflate)
  {
    hide Verdict, EncodesImage;
    if Verdict(data, crc, inflate).None? {
      var cs := AcceptedEncodesImage(data, crc, inflate);
    }
    if IsValidPng(data, crc, inflate) {
      var cs :| EncodesImage(data, cs, crc, inflate);
      EncodedImageAccepted(data, cs, crc, inflate);
    }
  }

  /** A rejected file fails where the loop stopped: all earlier chunks were read and admitted. */
  lemma ChunkErrorIsFirstFault(data: seq<Byte>, crc: Checksum) returns (cs: seq<Chunk>, t: Scan, stop: nat)
    requires SIGNATURE <= data && ScanFile(data, crc).Err?
    ensures 8 <= stop < |data| && data[..stop] == SIGNATURE + EncodeChunks(cs, crc)
    ensures Follows(START, cs, true, t)
    ensures Fault(data, stop, t, crc) == Some(ScanFile(data, crc).error)
  {
    cs, t, stop := ScanReads(data, 8, START, crc);
    assert data[..stop] == data[..8] + data[8..stop];
  }

  method ValidatePng(data: seq<Byte>, crc: Checksum, inflate: Inflate) returns (r: Option<PngError>)
    ensures r.None? <==> IsValidPng(data, crc, inflate)
    ensures r == Verdict(data, crc, inflate)
  {
    AcceptedIffValid(data, crc, inflate);
    if !(SIGNATURE <= data) {
      return Some(NotPng);
    }
    var offset := 8;
    var state := START;
    while offset < |data|
      invariant 8 <= offset <= |data|
      invariant ScanFile(data, crc) == ScanFrom(data, offset, state, crc)
    {
      var chunk := ReadChunk(data, offset, crc);
      if chunk.Err? {
        return Some(chunk.error);
      }
      var chunkEnd := offset + FRAMING + |chunk.value.payload|;
      var next := Admit(state, chunk.value, chunkEnd == |data|);
      if next.Err? {
        return Some(next.error);
      }
      state, offset := next.value, chunkEnd;
    }
    if !Complete(state) {
      return Some(MissingIdatOrIend);
    }
    var pixels := inflate(state.idat);
    if pixels.Corrupt? {
      return Some(NotDecodable);
    }
    if !pixels.eof || pixels.unused != [] || state.header.None? {
      return Some(IncompleteStream);
    }
    var header := state.header.value;
    var passes := ComputePasses(header);
    r := CheckScanlines(pixels.decoded, passes, header.bitsPerPixel);
  }
}
