/** Segment records: the V3 header, the layered payload (compression, then encryption), reading a
    chunk back. */
module SegmentFormat {
  import opened Basics
  import opened WalFormat

  /** CRC-32, BLAKE3, zstd and the vault as functions. */
  datatype Codecs = Codecs(
    crc: Bytes -> U32,
    hash: Bytes -> Bytes,
    zip: Bytes -> Option<Bytes>,
    unzip: Bytes -> Option<Bytes>,
    vault: Option<Aead>)

  ghost predicate Sane(lib: Codecs) {
    && (forall d :: |lib.hash(d)| == 32)
    && (forall d :: lib.zip(d).Some? ==> lib.unzip(lib.zip(d).value) == Some(d))
    && (lib.vault.Some? ==>
          forall p, n, a :: |lib.vault.value.seal(p, n, a)| == |p| + 16 &&
                            lib.vault.value.unseal(lib.vault.value.seal(p, n, a), n, a) == Some(p))
  }

  const V3_MAGIC: Bytes := [79, 83, 82, 51]   // "OSR3"
  const V2_MAGIC: Bytes := [79, 79, 83, 82]   // "OOSR"
  const SEGMENT_MAGIC: Bytes := [79, 79, 83, 83]  // "OOSS"

  /** `zipped` and `isSealed` are the codec and encryption scheme bytes; `size` is the header's own
      length, 80 for V3 and 56 for V2. */
  datatype Header = Header(id: Bytes, zipped: bool, isSealed: bool, rawLen: U32, payloadLen: U32,
                           payloadCrc: U32, nonce: Bytes, size: nat)

  function Flag(b: bool): Byte { if b then 1 else 0 }

  function RecordAad(id: Bytes, zipped: bool, isSealed: bool, rawLen: U32, payloadLen: U32): Bytes {
    id + [Flag(zipped), Flag(isSealed)] + Le(rawLen, 4) + Le(payloadLen, 4)
  }

  function HeaderBody(h: Header): Bytes {
    V3_MAGIC + h.id + [Flag(h.zipped), Flag(h.isSealed), 0, 0] + Le(h.rawLen, 4) + Le(h.payloadLen, 4) +
    Le(h.payloadCrc, 4) + h.nonce
  }

  function EncodeHeader(lib: Codecs, h: Header): Bytes {
    HeaderBody(h) + Le(lib.crc(HeaderBody(h)), 4)
  }

  /** `RecordHeader::read_from`: fewer than four bytes left, an end of file inside the header, bad
      bytes, or a header. */
  datatype HeaderRead = End | Short | Invalid | Found(header: Header)

  function ReadHeader(lib: Codecs, b: Bytes): (r: HeaderRead)
    ensures r.Found? ==> r.header.size <= |b| && (r.header.size == 80 || r.header.size == 56)
    ensures r.End? <==> |b| < 4
  {
    if |b| < 4 then End
    else if b[..4] == V3_MAGIC then
      if |b| < 80 then Short
      else if lib.crc(b[..76]) != FromLe(b[76..80]) then Invalid
      else if b[36] > 1 || b[37] > 1 then Invalid
      else
        LengthsInRange(b);
        Found(Header(b[4..36], b[36] == 1, b[37] == 1, FromLe(b[40..44]), FromLe(b[44..48]), FromLe(b[48..52]),
                     b[52..76], 80))
    else if b[..4] == V2_MAGIC then
      if |b| < 56 then Short
      else if lib.crc(b[..52]) != FromLe(b[52..56]) then Invalid
      else if b[36] > 1 then Invalid
      else
        LengthsInRange(b);
        Found(Header(b[4..36], b[36] == 1, false, FromLe(b[40..44]), FromLe(b[44..48]), FromLe(b[48..52]), [], 56))
    else Invalid
  }

  lemma LengthsInRange(b: Bytes)
    requires |b| >= 52
    ensures FromLe(b[40..44]) < 0x1_0000_0000 && FromLe(b[44..48]) < 0x1_0000_0000 && FromLe(b[48..52]) < 0x1_0000_0000
  {
    Le32InRange(b[40..44]);
    Le32InRange(b[44..48]);
    Le32InRange(b[48..52]);
  }

  lemma HeaderLayout(lib: Codecs, h: Header, rest: Bytes)
    requires |h.id| == 32 && |h.nonce| == 24
    ensures var b := EncodeHeader(lib, h) + rest;
            && |EncodeHeader(lib, h)| == 80
            && b[..4] == V3_MAGIC && b[4..36] == h.id && b[36] == Flag(h.zipped) && b[37] == Flag(h.isSealed)
            && b[40..44] == Le(h.rawLen, 4) && b[44..48] == Le(h.payloadLen, 4) && b[48..52] == Le(h.payloadCrc, 4)
            && b[52..76] == h.nonce && b[..76] == HeaderBody(h) && b[76..80] == Le(lib.crc(HeaderBody(h)), 4)
  {
  }

  lemma HeaderRoundTrip(lib: Codecs, h: Header, rest: Bytes)
    requires |h.id| == 32 && |h.nonce| == 24 && h.size == 80
    ensures |EncodeHeader(lib, h)| == 80 && ReadHeader(lib, EncodeHeader(lib, h) + rest) == Found(h)
  {
    hide Le, FromLe, EncodeHeader, HeaderBody;
    HeaderLayout(lib, h, rest);
    Le4(h.rawLen);
    Le4(h.payloadLen);
    Le4(h.payloadCrc);
    Le4(lib.crc(HeaderBody(h)));
  }

  /** A header cut short is the end of the file, not corruption. */
  lemma HeaderCut(lib: Codecs, h: Header, cut: nat)
    requires |h.id| == 32 && |h.nonce| == 24 && h.size == 80 && cut < 80
    ensures |EncodeHeader(lib, h)| == 80
    ensures ReadHeader(lib, EncodeHeader(lib, h)[..cut]) == if cut < 4 then End else Short
  {
  }

  // ---------------------------------------------------------------- the writer's record

  /** A chunk as it is appended, with the random nonce a vault store uses. */
  datatype Stored = Stored(data: Bytes, nonce: Bytes)

  /** Compressed when that saves more than five per cent. */
  function Zipped(lib: Codecs, data: Bytes): bool {
    lib.zip(data).Some? && |lib.zip(data).value| < |data| * 95 / 100
  }

  function Compressed(lib: Codecs, data: Bytes): Bytes {
    if Zipped(lib, data) then lib.zip(data).value else data
  }

  function PayloadLength(lib: Codecs, data: Bytes): nat {
    |Compressed(lib, data)| + (if lib.vault.Some? then 16 else 0)
  }

  /** Lengths are stored in 32 bits; the engine's chunks are at most 256 KiB. */
  predicate Storable(lib: Codecs, s: Stored) {
    |s.data| < 0x1_0000_0000 && PayloadLength(lib, s.data) < 0x1_0000_0000 && |s.nonce| == 24
  }

  /** The associated data the writer seals with: the header fields, before the payload exists. */
  function WriterAad(lib: Codecs, s: Stored): Bytes
    requires Storable(lib, s)
  {
    RecordAad(lib.hash(s.data), Zipped(lib, s.data), true, |s.data|, PayloadLength(lib, s.data))
  }

  function PayloadOf(lib: Codecs, s: Stored): Bytes
    requires Storable(lib, s)
  {
    if lib.vault.Some? then lib.vault.value.seal(Compressed(lib, s.data), s.nonce, WriterAad(lib, s))
    else Compressed(lib, s.data)
  }

  function HeaderOf(lib: Codecs, s: Stored): Header
    requires Storable(lib, s)
  {
    Header(lib.hash(s.data), Zipped(lib, s.data), lib.vault.Some?, |s.data|, PayloadLength(lib, s.data),
           lib.crc(PayloadOf(lib, s)), if lib.vault.Some? then s.nonce else seq(24, _ => 0), 80)
  }

  function RecordBytes(lib: Codecs, s: Stored): Bytes
    requires Storable(lib, s)
  {
    EncodeHeader(lib, HeaderOf(lib, s)) + PayloadOf(lib, s)
  }

  /** A stored payload is never longer than the data, but for the vault's 16 bytes, and any compression that saves
      more than five per cent is used. */
  lemma PayloadIsNoLonger(lib: Codecs, data: Bytes)
    ensures PayloadLength(lib, data) <= |data| + (if lib.vault.Some? then 16 else 0)
    ensures lib.zip(data).Some? && 100 * (|lib.zip(data).value| + 1) <= 95 * |data| ==>
              PayloadLength(lib, data) == |lib.zip(data).value| + (if lib.vault.Some? then 16 else 0)
  {
  }

  lemma PayloadHasItsLength(lib: Codecs, s: Stored)
    requires Sane(lib) && Storable(lib, s)
    ensures |PayloadOf(lib, s)| == PayloadLength(lib, s.data)
  {
    hide Zipped;
  }

  // ---------------------------------------------------------------- reading one chunk back

  datatype Location = Location(segment: nat, offset: nat, payloadOffset: nat, payloadLen: nat, rawLen: nat)

  const MAX_SEGMENT: nat := 268435456

  /** The reader's layers above the bytes: decrypt, decompress, verify the content hash. */
  function Unwrap(lib: Codecs, h: Header, stored: Bytes, id: Bytes): Option<Bytes> {
    var plain := if !h.isSealed then Some(stored)
                 else if lib.vault.None? then None
                 else
                   var aad := RecordAad(h.id, h.zipped, h.isSealed, h.rawLen, h.payloadLen);
                   lib.vault.value.unseal(stored, h.nonce, aad);
    var raw := if plain.None? then None else if h.zipped then lib.unzip(plain.value) else plain;
    if raw.Some? && lib.hash(raw.value) == id then raw else None
  }

  /** `read_chunk`; None stands for any of its errors. */
  function ReadChunk(lib: Codecs, file: Bytes, id: Bytes, loc: Location): Option<Bytes> {
    if loc.offset + 80 > |file| then None
    else
      match ReadHeader(lib, file[loc.offset..])
      case Found(h) =>
        if h.payloadLen != loc.payloadLen || h.payloadLen > MAX_SEGMENT then None
        else if loc.offset + 80 + h.payloadLen > |file| || loc.offset + h.size + h.payloadLen > |file| then None
        else
          var stored := file[loc.offset + h.size..loc.offset + h.size + h.payloadLen];
          if lib.crc(stored) != h.payloadCrc then None else Unwrap(lib, h, stored, id)
      case _ => None
  }

  /** The writer's associated data is the reader's, so what was wrapped unwraps. */
  lemma UnwrapInverts(lib: Codecs, s: Stored)
    requires Sane(lib) && Storable(lib, s)
    ensures Unwrap(lib, HeaderOf(lib, s), PayloadOf(lib, s), lib.hash(s.data)) == Some(s.data)
  {
  }

  function LocationOf(lib: Codecs, segment: nat, offset: nat, s: Stored): Location {
    Location(segment, offset, offset + 80, PayloadLength(lib, s.data), |s.data|)
  }

  lemma RecordSlices(lib: Codecs, s: Stored, before: Bytes, after: Bytes)
    requires Sane(lib) && Storable(lib, s)
    ensures |RecordBytes(lib, s)| == 80 + PayloadLength(lib, s.data)
    ensures var file := before + RecordBytes(lib, s) + after;
            && file[|before|..] == EncodeHeader(lib, HeaderOf(lib, s)) + (PayloadOf(lib, s) + after)
            && file[|before| + 80..|before| + 80 + PayloadLength(lib, s.data)] == PayloadOf(lib, s)
  {
  }

  /** A chunk in a segment reads back as the bytes put, exactly when its stored payload does not
      exceed the reader's limit; sealed or not, compressed or not. */
  lemma ReadBack(lib: Codecs, s: Stored, before: Bytes, after: Bytes, segment: nat)
    requires Sane(lib) && Storable(lib, s)
    ensures var file, at := before + RecordBytes(lib, s) + after, LocationOf(lib, segment, |before|, s);
            ReadChunk(lib, file, lib.hash(s.data), at) ==
            if PayloadLength(lib, s.data) <= MAX_SEGMENT then Some(s.data) else None
  {
    hide EncodeHeader, PayloadOf, PayloadLength, ReadHeader, Unwrap, RecordBytes, Sane;
    RecordSlices(lib, s, before, after);
    HeaderSize(lib, s);
    HeaderRoundTrip(lib, HeaderOf(lib, s), PayloadOf(lib, s) + after);
    UnwrapInverts(lib, s);
  }

  lemma HeaderSize(lib: Codecs, s: Stored)
    requires Sane(lib) && Storable(lib, s)
    ensures var h := HeaderOf(lib, s);
            |h.id| == 32 && |h.nonce| == 24 && h.size == 80 && h.payloadLen == PayloadLength(lib, s.data)
            && h.payloadCrc == lib.crc(PayloadOf(lib, s))
  {
  }

  /** For instance, an uncompressed chunk one byte above the limit. */
  lemma OversizedExample(crc: Bytes -> U32)
    ensures var lib := Codecs(crc, _ => seq(32, _ => 0), _ => None, _ => None, None);
            var s := Stored(seq(268435457, _ => 0), seq(24, _ => 0));
            && Sane(lib) && Storable(lib, s)
            && ReadChunk(lib, RecordBytes(lib, s), lib.hash(s.data), LocationOf(lib, 1, 0, s)) == None
  {
    var lib := Codecs(crc, _ => seq(32, _ => 0), _ => None, _ => None, None);
    var s := Stored(seq(268435457, _ => 0), seq(24, _ => 0));
    assert PayloadLength(lib, s.data) == 268435457;
    hide ReadChunk, RecordBytes, PayloadLength;
    ReadBack(lib, s, [], [], 1);
    assert [] + RecordBytes(lib, s) + [] == RecordBytes(lib, s);
  }

  // ---------------------------------------------------------------- nothing unchecked is accepted

  /** Any bytes whatever: a header is accepted only with a known magic, known codec bytes and its own checksum;
      a whole one that fails any of these is refused, not taken for an end of file. */
  lemma HeaderIsChecked(lib: Codecs, b: Bytes)
    ensures ReadHeader(lib, b).Found? ==>
              var h := ReadHeader(lib, b).header;
              && b[..4] == (if h.size == 80 then [79, 83, 82, 51] else [79, 79, 83, 82])
              && lib.crc(b[..h.size - 4]) == FromLe(b[h.size - 4..h.size]) && b[36] <= 1
              && (h.size == 80 ==> b[37] <= 1)
              && h.id == b[4..36] && h.rawLen == FromLe(b[40..44]) && h.payloadLen == FromLe(b[44..48])
    ensures |b| >= 4 && b[..4] != [79, 83, 82, 51] && b[..4] != [79, 79, 83, 82] ==> ReadHeader(lib, b) == Invalid
    ensures |b| >= 80 && b[..4] == [79, 83, 82, 51] ==>
              (lib.crc(b[..76]) != FromLe(b[76..80]) || b[36] > 1 || b[37] > 1 ==> ReadHeader(lib, b) == Invalid)
    ensures |b| >= 56 && b[..4] == [79, 79, 83, 82] && (lib.crc(b[..52]) != FromLe(b[52..56]) || b[36] > 1) ==>
              ReadHeader(lib, b) == Invalid
  {
    hide FromLe;
  }

  /** Whatever a file holds, a read returns data with the hash asked for, behind a payload whose checksum and length
      agreed, or it fails. */
  lemma ReadIsChecked(lib: Codecs, file: Bytes, id: Bytes, loc: Location)
    requires ReadChunk(lib, file, id, loc).Some?
    ensures lib.hash(ReadChunk(lib, file, id, loc).value) == id
    ensures loc.offset + 80 <= |file| && ReadHeader(lib, file[loc.offset..]).Found?
    ensures var h := ReadHeader(lib, file[loc.offset..]).header;
            && h.payloadLen == loc.payloadLen && loc.offset + h.size + h.payloadLen <= |file|
            && lib.crc(file[loc.offset + h.size..loc.offset + h.size + h.payloadLen]) == h.payloadCrc
            && (h.isSealed ==> lib.vault.Some?)
  {
    hide ReadHeader;
  }
}
