/** The byte layouts of manifests and write-ahead-log records, and their decoders. */
module WalFormat {
  import opened Basics

  type U32 = x: int | 0 <= x < 0x1_0000_0000
  type U64 = x: int | 0 <= x < 0x1_0000_0000_0000_0000

  // ---------------------------------------------------------------- little-endian integers

  function Pow256(w: nat): (p: nat)
    ensures p > 0
  {
    if w == 0 then 1 else 256 * Pow256(w - 1)
  }

  function Le(n: nat, w: nat): (b: Bytes)
    ensures |b| == w
  {
    if w == 0 then [] else [n % 256] + Le(n / 256, w - 1)
  }

  function FromLe(b: Bytes): nat {
    if b == [] then 0 else b[0] + 256 * FromLe(b[1..])
  }

  lemma {:induction false} LeRoundTrip(n: nat, w: nat)
    requires n < Pow256(w)
    ensures FromLe(Le(n, w)) == n
  {
    if w > 0 {
      LeRoundTrip(n / 256, w - 1);
      assert Le(n, w)[1..] == Le(n / 256, w - 1);
    }
  }

  /** Least significant byte first. */
  lemma {:induction false} LeAt(n: nat, w: nat, i: nat)
    requires i < w
    ensures Le(n, w)[i] == n / Pow256(i) % 256
  {
    if i > 0 {
      LeAt(n / 256, w - 1, i - 1);
      DivideTwice(n, Pow256(i - 1));
    }
  }

  lemma DivideTwice(n: nat, p: nat)
    requires p > 0
    ensures n / 256 / p == n / (256 * p)
  {
    var a, q := n / 256, n / 256 / p;
    assert n == 256 * a + n % 256 && a == p * q + a % p;
    assert n == (256 * p) * q + (256 * (a % p) + n % 256);
    QuotientIs(n, 256 * p, q, 256 * (a % p) + n % 256);
  }

  lemma QuotientIs(n: nat, d: nat, q: nat, r: nat)
    requires n == d * q + r && r < d
    ensures n / d == q
  {
    LessOrNot(d, q, n / d + 1);
    LessOrNot(d, n / d, q + 1);
  }

  lemma LessOrNot(d: nat, a: nat, b: nat)
    requires d > 0
    ensures a < b || d * a >= d * b
  {
    if a >= b { assert d * a == d * b + d * (a - b); }
  }

  lemma Le2(n: nat)
    requires n < 0x1_0000
    ensures FromLe(Le(n, 2)) == n
  {
    assert Pow256(2) == 256 * Pow256(1) == 65536;
    LeRoundTrip(n, 2);
  }

  lemma Le4(n: nat)
    requires n < 0x1_0000_0000
    ensures FromLe(Le(n, 4)) == n
  {
    assert Pow256(4) == 256 * Pow256(3) == 65536 * Pow256(2) == 0x1_0000_0000;
    LeRoundTrip(n, 4);
  }

  lemma Le8(n: nat)
    requires n < 0x1_0000_0000_0000_0000
    ensures FromLe(Le(n, 8)) == n
  {
    assert Pow256(2) == 256 * Pow256(1) == 65536;
    assert Pow256(4) == 256 * Pow256(3) == 65536 * Pow256(2);
    assert Pow256(6) == 256 * Pow256(5) == 65536 * Pow256(4);
    assert Pow256(8) == 256 * Pow256(7) == 65536 * Pow256(6);
    LeRoundTrip(n, 8);
  }

  /** Taking a concatenation apart again. */
  lemma Split(a: Bytes, b: Bytes)
    ensures (a + b)[..|a|] == a && (a + b)[|a|..] == b
  {
  }

  // ---------------------------------------------------------------- libraries

  /** CRC-32, UTF-8 validation and the vault's AEAD, as functions; a store without a vault has none. */
  datatype Lib = Lib(crc: Bytes -> U32, utf8: Bytes -> bool, vault: Option<Aead>)
  datatype Aead = Aead(seal: (Bytes, Bytes, Bytes) -> Bytes, unseal: (Bytes, Bytes, Bytes) -> Option<Bytes>)

  /** Opening what was sealed with the same nonce and associated data gives the plaintext; the
      ciphertext is 16 bytes longer. */
  ghost predicate Lawful(lib: Lib) {
    lib.vault.Some? ==>
      forall p, n, a :: |lib.vault.value.seal(p, n, a)| == |p| + 16 &&
                        lib.vault.value.unseal(lib.vault.value.seal(p, n, a), n, a) == Some(p)
  }

  datatype Error = WalRecovery | ChecksumMismatch | PasswordRequired | DecryptionFailed | Internal
  datatype Result<T> = Ok(value: T) | Err(error: Error)

  // ---------------------------------------------------------------- manifests

  datatype Manifest = Manifest(totalSize: U64, contentHash: Bytes, createdAt: U64, chunks: seq<Bytes>)

  /** The field widths the source's types impose. */
  predicate ManifestTyped(m: Manifest) {
    |m.contentHash| == 32 && forall i :: 0 <= i < |m.chunks| ==> |m.chunks[i]| == 32
  }

  const MANIFEST_MAGIC: Bytes := [79, 79, 83, 77]  // "OOSM"

  function Flat(ids: seq<Bytes>): Bytes {
    if ids == [] then [] else ids[0] + Flat(ids[1..])
  }

  function ManifestBody(m: Manifest): Bytes {
    MANIFEST_MAGIC + (Le(1, 4) + (Le(m.totalSize, 8) + (m.contentHash + (Le(m.createdAt, 8) +
    (Le(|m.chunks| % 0x1_0000_0000, 4) + Flat(m.chunks))))))
  }

  /** `to_bytes`; the chunk count is cast to 32 bits. */
  function EncodeManifest(lib: Lib, m: Manifest): Bytes {
    ManifestBody(m) + Le(lib.crc(ManifestBody(m)), 4)
  }

  function Unflat(b: Bytes, count: nat): seq<Bytes>
    requires |b| == 32 * count
  {
    if count == 0 then [] else [b[..32]] + Unflat(b[32..], count - 1)
  }

  /** `from_bytes`, check by check. */
  function DecodeManifest(lib: Lib, b: Bytes): Result<Manifest> {
    if |b| < 64 then Err(Internal)
    else
      var body := b[..|b| - 4];
      if FromLe(b[|b| - 4..]) != lib.crc(body) then Err(ChecksumMismatch)
      else if b[..4] != MANIFEST_MAGIC then Err(Internal)
      else if FromLe(b[4..8]) != 1 then Err(Internal)
      else
        var count := FromLe(b[56..60]);
        if |b| != 60 + count * 32 + 4 then Err(Internal)
        else
          Le64InRange(b[8..16]);
          Le64InRange(b[48..56]);
          Ok(Manifest(FromLe(b[8..16]), b[16..48], FromLe(b[48..56]), Unflat(b[60..|b| - 4], count)))
  }

  lemma Le64InRange(b: Bytes)
    requires |b| == 8
    ensures FromLe(b) < 0x1_0000_0000_0000_0000
  {
    FromLeBelow(b);
    assert Pow256(2) == 256 * Pow256(1) == 65536;
    assert Pow256(4) == 256 * Pow256(3) == 65536 * Pow256(2);
    assert Pow256(6) == 256 * Pow256(5) == 65536 * Pow256(4);
    assert Pow256(8) == 256 * Pow256(7) == 65536 * Pow256(6);
  }

  lemma {:induction false} FromLeBelow(b: Bytes)
    ensures FromLe(b) < Pow256(|b|)
  {
    if b != [] { FromLeBelow(b[1..]); }
  }

  lemma {:induction false} FlatRoundTrip(ids: seq<Bytes>)
    requires forall i :: 0 <= i < |ids| ==> |ids[i]| == 32
    ensures |Flat(ids)| == 32 * |ids| && Unflat(Flat(ids), |ids|) == ids
  {
    if ids != [] {
      FlatRoundTrip(ids[1..]);
      Split(ids[0], Flat(ids[1..]));
    }
  }

  /** The fields of a manifest, by position. */
  lemma ManifestLayout(m: Manifest)
    requires ManifestTyped(m)
    ensures var b := ManifestBody(m);
            && |b| == 60 + 32 * |m.chunks|
            && b[..4] == MANIFEST_MAGIC && b[4..8] == Le(1, 4) && b[8..16] == Le(m.totalSize, 8)
            && b[16..48] == m.contentHash && b[48..56] == Le(m.createdAt, 8)
            && b[56..60] == Le(|m.chunks| % 0x1_0000_0000, 4) && b[60..] == Flat(m.chunks)
  {
    hide Le, Flat;
    FlatRoundTrip(m.chunks);
    var f := Flat(m.chunks);
    var c := Le(|m.chunks| % 0x1_0000_0000, 4);
    var b := ManifestBody(m);
    assert b == MANIFEST_MAGIC + Le(1, 4) + Le(m.totalSize, 8) + m.contentHash + Le(m.createdAt, 8) + c + f;
  }

  lemma ManifestRoundTrip(lib: Lib, m: Manifest)
    requires ManifestTyped(m) && |m.chunks| < 0x1_0000_0000
    ensures DecodeManifest(lib, EncodeManifest(lib, m)) == Ok(m)
    ensures |EncodeManifest(lib, m)| == 64 + 32 * |m.chunks|
  {
    hide Le, FromLe, ManifestBody, Flat, Unflat;
    var body := ManifestBody(m);
    ManifestLayout(m);
    FlatRoundTrip(m.chunks);
    ManifestSlices(body, Le(lib.crc(body), 4));
    Le4(lib.crc(body));
    Le4(1);
    Le4(|m.chunks|);
    Le8(m.totalSize);
    Le8(m.createdAt);
  }

  lemma ManifestSlices(body: Bytes, crc: Bytes)
    requires |body| >= 60 && |crc| == 4
    ensures var b := body + crc;
            && b[..|b| - 4] == body && b[|b| - 4..] == crc
            && b[..4] == body[..4] && b[4..8] == body[4..8] && b[8..16] == body[8..16] && b[16..48] == body[16..48]
            && b[48..56] == body[48..56] && b[56..60] == body[56..60] && b[60..|b| - 4] == body[60..]
  {
  }

  // ---------------------------------------------------------------- put payloads

  /** A put as logged; `name` is its UTF-8 bytes. Today's engine logs no chunk data. */
  datatype Put = Put(name: Bytes, objectId: Bytes, version: U32, manifest: Manifest, chunks: seq<(Bytes, Bytes)>)

  predicate PutTyped(lib: Lib, p: Put) {
    && lib.utf8(p.name) && |p.objectId| == 16 && ManifestTyped(p.manifest)
    && forall i :: 0 <= i < |p.chunks| ==> |p.chunks[i].0| == 32
  }

  function ChunksSize(cs: seq<(Bytes, Bytes)>): nat {
    if cs == [] then 0 else 36 + |cs[0].1| + ChunksSize(cs[1..])
  }

  function EncodeChunks(cs: seq<(Bytes, Bytes)>): Bytes {
    if cs == [] then [] else cs[0].0 + (Le(|cs[0].1|, 4) + (cs[0].1 + EncodeChunks(cs[1..])))
  }

  function DecodeChunks(b: Bytes, count: nat): Result<seq<(Bytes, Bytes)>>
    decreases count
  {
    if count == 0 then Ok([])
    else if |b| < 36 then Err(WalRecovery)
    else
      var len := FromLe(b[32..36]);
      var rest := b[36..];
      if len > |rest| then Err(WalRecovery)
      else
        match DecodeChunks(rest[len..], count - 1)
        case Err(e) => Err(e)
        case Ok(more) => Ok([(b[..32], rest[..len])] + more)
  }

  lemma {:induction false} ChunksRoundTrip(cs: seq<(Bytes, Bytes)>)
    requires forall i :: 0 <= i < |cs| ==> |cs[i].0| == 32 && |cs[i].1| < 0x1_0000_0000
    ensures DecodeChunks(EncodeChunks(cs), |cs|) == Ok(cs)
    ensures |EncodeChunks(cs)| == ChunksSize(cs) >= 36 * |cs|
  {
    if cs != [] {
      var (id, data) := cs[0];
      var more := EncodeChunks(cs[1..]);
      ChunksRoundTrip(cs[1..]);
      Le4(|data|);
      hide Le, FromLe;
      ChunkSlices(id, Le(|data|, 4), data, more);
      assert cs == [(id, data)] + cs[1..];
    }
  }

  lemma ChunkSlices(id: Bytes, len: Bytes, data: Bytes, more: Bytes)
    requires |id| == 32 && |len| == 4
    ensures var b := id + (len + (data + more));
            b[..32] == id && b[32..36] == len && b[36..] == data + more
    ensures (data + more)[..|data|] == data && (data + more)[|data|..] == more
  {
  }

  function PayloadTail(p: Put): Bytes {
    Le(|p.chunks| % 0x1_0000_0000, 4) + EncodeChunks(p.chunks)
  }

  function PayloadBody(lib: Lib, p: Put): Bytes {
    var m := EncodeManifest(lib, p.manifest);
    p.objectId + (Le(p.version, 4) + (Le(|m| % 0x1_0000_0000, 4) + (m + PayloadTail(p))))
  }

  function Payload(lib: Lib, p: Put): Bytes {
    Le(|p.name| % 0x1_0000, 2) + (p.name + PayloadBody(lib, p))
  }

  /** Decoding behind the manifest. */
  function DecodeTail(name: Bytes, objectId: Bytes, version: U32, m: Manifest, b: Bytes): Result<Put> {
    if |b| < 4 then Err(WalRecovery)
    else
      var count := FromLe(b[..4]);
      var rest := b[4..];
      if count > |rest| / 36 then Err(WalRecovery)
      else
        match DecodeChunks(rest, count)
        case Err(e) => Err(e)
        case Ok(cs) => Ok(Put(name, objectId, version, m, cs))
  }

  /** Decoding behind the name. */
  function DecodeBody(lib: Lib, name: Bytes, b: Bytes): Result<Put> {
    if |b| < 24 then Err(WalRecovery)
    else
      var len := FromLe(b[20..24]);
      var rest := b[24..];
      if len > |rest| then Err(WalRecovery)
      else
        match DecodeManifest(lib, rest[..len])
        case Err(e) => Err(e)
        case Ok(m) =>
          Le32InRange(b[16..20]);
          DecodeTail(name, b[..16], FromLe(b[16..20]), m, rest[len..])
  }

  lemma Le32InRange(b: Bytes)
    requires |b| == 4
    ensures FromLe(b) < 0x1_0000_0000
  {
    FromLeBelow(b);
    assert Pow256(4) == 256 * Pow256(3) == 65536 * Pow256(2) == 0x1_0000_0000;
  }

  function DecodePut(lib: Lib, b: Bytes): Result<Put> {
    if |b| < 2 then Err(WalRecovery)
    else
      var len := FromLe(b[..2]);
      var rest := b[2..];
      if len > |rest| then Err(WalRecovery)
      else if !lib.utf8(rest[..len]) then Err(WalRecovery)
      else DecodeBody(lib, rest[..len], rest[len..])
  }

  /** Everything the encoder refuses is a length that would not fit its field. */
  predicate Fits(lib: Lib, p: Put) {
    && |p.name| < 0x1_0000
    && |EncodeManifest(lib, p.manifest)| < 0x1_0000_0000
    && |p.chunks| < 0x1_0000_0000
    && (forall i :: 0 <= i < |p.chunks| ==> |p.chunks[i].1| < 0x1_0000_0000)
    && 2 + |p.name| + 24 + |EncodeManifest(lib, p.manifest)| + 4 + ChunksSize(p.chunks) + (if lib.vault.Some?
        then 40 else 0) < 0x1_0000_0000
  }

  lemma TailRoundTrip(lib: Lib, p: Put)
    requires PutTyped(lib, p) && Fits(lib, p)
    ensures DecodeTail(p.name, p.objectId, p.version, p.manifest, PayloadTail(p)) == Ok(p)
    ensures |PayloadTail(p)| == 4 + ChunksSize(p.chunks)
  {
    hide Le, FromLe, EncodeChunks, DecodeChunks, ChunksSize, EncodeManifest, ManifestTyped;
    ChunksRoundTrip(p.chunks);
    Le4(|p.chunks|);
    Split(Le(|p.chunks|, 4), EncodeChunks(p.chunks));
  }

  lemma ManifestCountFits(lib: Lib, m: Manifest)
    requires ManifestTyped(m) && |EncodeManifest(lib, m)| < 0x1_0000_0000
    ensures |m.chunks| < 0x1_0000_0000
  {
    ManifestLayout(m);
  }

  lemma BodySlices(id: Bytes, version: Bytes, len: Bytes, m: Bytes, tail: Bytes)
    requires |id| == 16 && |version| == 4 && |len| == 4
    ensures var b := id + (version + (len + (m + tail)));
            b[..16] == id && b[16..20] == version && b[20..24] == len && b[24..] == m + tail
    ensures (m + tail)[..|m|] == m && (m + tail)[|m|..] == tail
  {
  }

  lemma BodyRoundTrip(lib: Lib, p: Put)
    requires PutTyped(lib, p) && Fits(lib, p)
    ensures DecodeBody(lib, p.name, PayloadBody(lib, p)) == Ok(p)
    ensures |PayloadBody(lib, p)| == 24 + |EncodeManifest(lib, p.manifest)| + 4 + ChunksSize(p.chunks)
  {
    hide Le, FromLe, EncodeManifest, DecodeManifest, PayloadTail, DecodeTail, ChunksSize;
    var m := EncodeManifest(lib, p.manifest);
    ManifestCountFits(lib, p.manifest);
    ManifestRoundTrip(lib, p.manifest);
    TailRoundTrip(lib, p);
    Le4(|m|);
    Le4(p.version);
    BodySlices(p.objectId, Le(p.version, 4), Le(|m|, 4), m, PayloadTail(p));
  }

  /** A logged put, manifest and chunk list included, decodes to itself. */
  lemma PutRoundTrip(lib: Lib, p: Put)
    requires PutTyped(lib, p) && Fits(lib, p)
    ensures DecodePut(lib, Payload(lib, p)) == Ok(p)
    ensures |Payload(lib, p)| == 2 + |p.name| + 24 + |EncodeManifest(lib, p.manifest)| + 4 + ChunksSize(p.chunks)
  {
    hide Le, FromLe, EncodeManifest, PayloadBody, DecodeBody, ChunksSize;
    BodyRoundTrip(lib, p);
    Le2(|p.name|);
    Split(Le(|p.name|, 2), p.name + PayloadBody(lib, p));
    Split(p.name, PayloadBody(lib, p));
  }

  // ---------------------------------------------------------------- records

  datatype Content = PutObject(put: Put) | Checkpoint(lsn: U64)
  datatype Record = Record(lsn: U64, content: Content)

  const WAL_MAGIC: Bytes := [79, 79, 83, 87]  // "OOSW"
  const PUT: Byte := 1
  const CHECKPOINT: Byte := 2
  const SEALED_PUT: Byte := 3

  function Aad(lsn: U64, kind: Byte): Bytes {
    Le(lsn, 8) + [kind]
  }

  function Frame(lib: Lib, lsn: U64, kind: Byte, payload: Bytes): Bytes {
    WAL_MAGIC + (Le(lsn, 8) + ([kind] + (Le(|payload| % 0x1_0000_0000, 4) + (Le(lib.crc(payload), 4) + payload))))
  }

  /** `encode_with_vault`; `nonce` is the random nonce of a sealed record. */
  function Encode(lib: Lib, r: Record, nonce: Bytes): Option<Bytes> {
    match r.content
    case Checkpoint(c) => Some(Frame(lib, r.lsn, CHECKPOINT, Le(c, 8)))
    case PutObject(p) =>
      if !Fits(lib, p) then None
      else if lib.vault.None? then Some(Frame(lib, r.lsn, PUT, Payload(lib, p)))
      else
        var ciphertext := lib.vault.value.seal(Payload(lib, p), nonce, Aad(r.lsn, SEALED_PUT));
        Some(Frame(lib, r.lsn, SEALED_PUT, nonce + ciphertext))
  }

  function DecodeContent(lib: Lib, lsn: U64, kind: Byte, payload: Bytes): Result<Content> {
    if kind == CHECKPOINT then
      if |payload| < 8 then Err(WalRecovery)
      else Le64InRange(payload[..8]); Ok(Checkpoint(FromLe(payload[..8])))
    else if kind == PUT then
      AsContent(DecodePut(lib, payload))
    else if lib.vault.None? then Err(PasswordRequired)
    else if |payload| < 40 then Err(WalRecovery)
    else
      match lib.vault.value.unseal(payload[24..], payload[..24], Aad(lsn, kind))
      case None => Err(DecryptionFailed)
      case Some(plain) => AsContent(DecodePut(lib, plain))
  }

  function AsContent(r: Result<Put>): Result<Content> {
    match r
    case Err(e) => Err(e)
    case Ok(p) => Ok(PutObject(p))
  }

  /** `decode_with_vault`: the record and how many bytes it took. */
  function Decode(lib: Lib, b: Bytes): (r: Result<(Record, nat)>)
    ensures r.Ok? ==> 21 <= r.value.1 <= |b|
  {
    if |b| < 21 then Err(WalRecovery)
    else if b[..4] != WAL_MAGIC then Err(WalRecovery)
    else if b[12] != PUT && b[12] != CHECKPOINT && b[12] != SEALED_PUT then Err(WalRecovery)
    else
      var len := FromLe(b[13..17]);
      if |b| < 21 + len then Err(WalRecovery)
      else
        var payload := b[21..21 + len];
        if lib.crc(payload) != FromLe(b[17..21]) then Err(ChecksumMismatch)
        else
          Le64InRange(b[4..12]);
          match DecodeContent(lib, FromLe(b[4..12]), b[12], payload)
          case Err(e) => Err(e)
          case Ok(c) => Ok((Record(FromLe(b[4..12]), c), 21 + len))
  }

  predicate Typed(lib: Lib, r: Record) {
    r.content.PutObject? ==> PutTyped(lib, r.content.put)
  }

  lemma FrameLayout(lib: Lib, lsn: U64, kind: Byte, payload: Bytes, rest: Bytes)
    ensures var b := Frame(lib, lsn, kind, payload) + rest;
            && |Frame(lib, lsn, kind, payload)| == 21 + |payload|
            && b[..4] == WAL_MAGIC && b[4..12] == Le(lsn, 8) && b[12] == kind
            && b[13..17] == Le(|payload| % 0x1_0000_0000, 4) && b[17..21] == Le(lib.crc(payload), 4)
            && b[21..21 + |payload|] == payload
  {
    hide Le;
    var l, c := Le(|payload| % 0x1_0000_0000, 4), Le(lib.crc(payload), 4);
    assert Frame(lib, lsn, kind, payload) + rest == WAL_MAGIC + Le(lsn, 8) + [kind] + l + c + payload + rest;
  }

  lemma ContentRoundTrip(lib: Lib, r: Record, nonce: Bytes)
    requires Lawful(lib) && Typed(lib, r) && |nonce| == 24 && Encode(lib, r, nonce).Some?
    ensures exists kind: Byte, payload ::
              && Encode(lib, r, nonce) == Some(Frame(lib, r.lsn, kind, payload))
              && 1 <= kind <= 3 && |payload| < 0x1_0000_0000
              && DecodeContent(lib, r.lsn, kind, payload) == Ok(r.content)
  {
    hide Le, FromLe, Payload, DecodePut, Frame, EncodeManifest, ChunksSize;
    match r.content
    case Checkpoint(c) =>
      Le8(c);
      assert Le(c, 8)[..8] == Le(c, 8);
      assert DecodeContent(lib, r.lsn, CHECKPOINT, Le(c, 8)) == Ok(r.content);
    case PutObject(p) =>
      PutRoundTrip(lib, p);
      var plain := Payload(lib, p);
      if lib.vault.None? {
        assert DecodeContent(lib, r.lsn, PUT, plain) == Ok(r.content);
      } else {
        var sealed := lib.vault.value.seal(plain, nonce, Aad(r.lsn, SEALED_PUT));
        Split(nonce, sealed);
        assert DecodeContent(lib, r.lsn, SEALED_PUT, nonce + sealed) == Ok(r.content);
      }
  }

  /** What was encoded decodes to the same record and to its exact length, whatever follows it. */
  lemma RecordRoundTrip(lib: Lib, r: Record, nonce: Bytes, rest: Bytes)
    requires Lawful(lib) && Typed(lib, r) && |nonce| == 24 && Encode(lib, r, nonce).Some?
    ensures var b := Encode(lib, r, nonce).value; |b| >= 21 && Decode(lib, b + rest) == Ok((r, |b|))
  {
    hide Lawful, Typed, Encode, DecodeContent, Le, FromLe, Frame;
    ContentRoundTrip(lib, r, nonce);
    var kind: Byte, payload :|
      && Encode(lib, r, nonce) == Some(Frame(lib, r.lsn, kind, payload))
      && 1 <= kind <= 3 && |payload| < 0x1_0000_0000
      && DecodeContent(lib, r.lsn, kind, payload) == Ok(r.content);
    FrameLayout(lib, r.lsn, kind, payload, rest);
    Le8(r.lsn);
    Le4(|payload|);
    Le4(lib.crc(payload));
  }

  /** A record cut short anywhere is reported as an incomplete record, never as anything else. */
  lemma CutRecordIsIncomplete(lib: Lib, r: Record, nonce: Bytes, cut: nat)
    requires Lawful(lib) && Typed(lib, r) && |nonce| == 24 && Encode(lib, r, nonce).Some?
    requires cut < |Encode(lib, r, nonce).value|
    ensures Decode(lib, Encode(lib, r, nonce).value[..cut]) == Err(WalRecovery)
  {
    hide Lawful, Typed, Encode, DecodeContent, Le, FromLe, Frame;
    ContentRoundTrip(lib, r, nonce);
    var kind: Byte, payload :|
      && Encode(lib, r, nonce) == Some(Frame(lib, r.lsn, kind, payload))
      && 1 <= kind <= 3 && |payload| < 0x1_0000_0000
      && DecodeContent(lib, r.lsn, kind, payload) == Ok(r.content);
    FrameLayout(lib, r.lsn, kind, payload, []);
    Le4(|payload|);
    var b := Frame(lib, r.lsn, kind, payload);
    assert b + [] == b;
    if cut >= 21 {
      assert b[..cut][..4] == b[..4] && b[..cut][13..17] == b[13..17] && b[..cut][12] == b[12];
    }
  }

  // ---------------------------------------------------------------- nothing unchecked is accepted

  /** Any bytes whatever: a record is accepted only behind its magic, whole, and with the checksum its header
      states; a whole record with another checksum is reported as such. */
  lemma DecodedIsChecked(lib: Lib, b: Bytes)
    ensures Decode(lib, b).Ok? ==>
              var (r, n) := Decode(lib, b).value;
              && b[..4] == [79, 79, 83, 87] && r.lsn == FromLe(b[4..12]) && n == 21 + FromLe(b[13..17]) <= |b|
              && lib.crc(b[21..n]) == FromLe(b[17..21])
    ensures |b| >= 21 && b[..4] == [79, 79, 83, 87] && 1 <= b[12] <= 3 && |b| >= 21 + FromLe(b[13..17]) ==>
              (lib.crc(b[21..21 + FromLe(b[13..17])]) != FromLe(b[17..21]) ==> Decode(lib, b) == Err(ChecksumMismatch))
  {
    hide FromLe, DecodeContent;
  }

  /** The same for a manifest, whose length must also be that of its chunk count. */
  lemma ManifestIsChecked(lib: Lib, b: Bytes)
    requires DecodeManifest(lib, b).Ok?
    ensures |b| >= 64 && FromLe(b[|b| - 4..]) == lib.crc(b[..|b| - 4])
    ensures b[..4] == [79, 79, 83, 77] && FromLe(b[4..8]) == 1 && |b| == 64 + 32 * FromLe(b[56..60])
  {
    hide FromLe, Unflat;
  }

  /** What the log takes: any put with a name below 64 KiB and no chunk data, up to 2^26 chunks. */
  lemma PutsFit(lib: Lib, p: Put)
    requires PutTyped(lib, p) && |p.name| < 0x1_0000 && p.chunks == [] && |p.manifest.chunks| < 0x400_0000
    ensures Fits(lib, p)
  {
    ManifestRoundTrip(lib, p.manifest);
    hide EncodeManifest;
  }

  lemma LongNamesDoNotFit(lib: Lib, p: Put)
    requires |p.name| >= 0x1_0000
    ensures !Fits(lib, p)
  {
  }
}
