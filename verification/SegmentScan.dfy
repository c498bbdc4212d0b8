/** Start-up's scan of the segment files: validating records, building the index, cutting a torn
    tail off the newest segment and refusing everything else. */
module SegmentScan {
  import opened Basics
  import opened WalFormat
  import opened SegmentFormat

  type Index = map<Bytes, Location>

  /** One segment file; a directory is the sequence of its segments by ascending number. */
  datatype Segment = Segment(id: nat, bytes: Bytes)

  /** The index so far and where the segment's valid records end, or the offset of the damage. */
  datatype Outcome = Scanned(index: Index, end: nat) | Corrupt(offset: nat)

  function SegmentHeader(id: nat, now: nat): (b: Bytes)
    ensures |b| == 32
  {
    SEGMENT_MAGIC + Le(3, 4) + Le(id, 8) + Le(now, 8) + seq(8, _ => 0)
  }

  predicate HeaderAccepted(b: Bytes) {
    |b| >= 32 && b[..4] == SEGMENT_MAGIC && 1 <= FromLe(b[4..8]) <= 3
  }

  /** The record at `at`, if it is complete and its checksums hold. */
  datatype Next = Whole(header: Header, end: nat) | Torn | Damaged

  function NextRecord(lib: Codecs, file: Bytes, at: nat): (n: Next)
    requires at < |file|
    ensures n.Whole? ==> at < n.end <= |file| && n.end == at + n.header.size + n.header.payloadLen
  {
    match ReadHeader(lib, file[at..])
    case Found(h) =>
      var end := at + h.size + h.payloadLen;
      if end > |file| then Torn
      else if lib.crc(file[at + h.size..end]) != h.payloadCrc then Damaged
      else Whole(h, end)
    case Invalid => Damaged
    case _ => Torn
  }

  function Entry(seg: nat, at: nat, h: Header): Location {
    Location(seg, at, at + h.size, h.payloadLen, h.rawLen)
  }

  function ScanRecords(lib: Codecs, seg: nat, newest: bool, file: Bytes, at: nat, index: Index): (r: Outcome)
    requires at <= |file|
    ensures r.Scanned? ==> at <= r.end <= |file| && (r.end == |file| || newest)
    decreases |file| - at
  {
    if at == |file| then Scanned(index, at)
    else
      match NextRecord(lib, file, at)
      case Whole(h, end) => ScanRecords(lib, seg, newest, file, end, index[h.id := Entry(seg, at, h)])
      case Torn => if newest then Scanned(index, at) else Corrupt(at)
      case Damaged => Corrupt(at)
  }

  function ScanSegment(lib: Codecs, seg: nat, newest: bool, file: Bytes, index: Index): (r: Outcome)
    ensures r.Scanned? ==> 32 <= r.end <= |file| && (r.end == |file| || newest)
  {
    if HeaderAccepted(file) then ScanRecords(lib, seg, newest, file, 32, index) else Corrupt(0)
  }

  /** All segments from the `k`-th on; only the last one is the newest. */
  function ScanDir(lib: Codecs, disk: seq<Segment>, k: nat, index: Index, end: nat): (r: Outcome)
    requires k <= |disk|
    requires k == |disk| > 0 ==> end <= |disk[k - 1].bytes|
    ensures r.Scanned? && |disk| > 0 ==> r.end <= |disk[|disk| - 1].bytes|
    decreases |disk| - k
  {
    if k == |disk| then Scanned(index, end)
    else
      match ScanSegment(lib, disk[k].id, k == |disk| - 1, disk[k].bytes, index)
      case Scanned(i, e) => ScanDir(lib, disk, k + 1, i, e)
      case Corrupt(o) => Corrupt(o)
  }

  /** The directory after the newest segment was cut to `end`. */
  function Repaired(disk: seq<Segment>, end: nat): seq<Segment>
    requires disk != [] ==> end <= |disk[|disk| - 1].bytes|
  {
    if disk == [] then [] else
    var n := |disk| - 1;
    disk[..n] + [Segment(disk[n].id, disk[n].bytes[..end])]
  }

  // ---------------------------------------------------------------- the scanning loops

  method ScanFile(lib: Codecs, seg: nat, newest: bool, bytes: Bytes, index: Index)
      returns (r: Outcome, left: Bytes)
    ensures r == ScanSegment(lib, seg, newest, bytes, index)
    ensures left == if r.Scanned? then bytes[..r.end] else bytes
  {
    hide ReadHeader, FromLe, ScanRecords;
    left := bytes;
    if !HeaderAccepted(bytes) { return Corrupt(0), left; }
    var current, idx := 32, index;
    while current < |bytes|
      invariant 32 <= current <= |bytes| && left == bytes
      invariant ScanRecords(lib, seg, newest, bytes, 32, index) == ScanRecords(lib, seg, newest, bytes, current, idx)
    {
      ScanUnfolds(lib, seg, newest, bytes, current, idx);
      match ReadHeader(lib, bytes[current..])
      case Found(h) =>
        var recordLen := h.size + h.payloadLen;
        if current + recordLen > |bytes| {
          if !newest { return Corrupt(current), left; }
          left := left[..current];
          return Scanned(idx, current), left;
        }
        if lib.crc(bytes[current + h.size..current + recordLen]) != h.payloadCrc { return Corrupt(current), left; }
        idx := idx[h.id := Location(seg, current, current + h.size, h.payloadLen, h.rawLen)];
        current := current + recordLen;
      case Invalid =>
        return Corrupt(current), left;
      case _ =>
        if !newest { return Corrupt(current), left; }
        left := left[..current];
        return Scanned(idx, current), left;
    }
    ScanEnds(lib, seg, newest, bytes, idx);
    return Scanned(idx, current), left;
  }

  lemma ScanEnds(lib: Codecs, seg: nat, newest: bool, file: Bytes, index: Index)
    ensures ScanRecords(lib, seg, newest, file, |file|, index) == Scanned(index, |file|)
  {
  }

  /** One round of the scan, by what the header at `at` reads as. */
  lemma ScanUnfolds(lib: Codecs, seg: nat, newest: bool, file: Bytes, at: nat, index: Index)
    requires at < |file|
    ensures var r := ScanRecords(lib, seg, newest, file, at, index);
            var stop := if newest then Scanned(index, at) else Corrupt(at);
            match ReadHeader(lib, file[at..])
            case Found(h) =>
              var end := at + h.size + h.payloadLen;
              if end > |file| then r == stop
              else if lib.crc(file[at + h.size..end]) != h.payloadCrc then r == Corrupt(at)
              else r == ScanRecords(lib, seg, newest, file, end, index[h.id := Entry(seg, at, h)])
            case Invalid => r == Corrupt(at)
            case _ => r == stop
  {
    hide ReadHeader;
  }

  predicate Ascending(disk: seq<Segment>) {
    forall i, j :: 0 <= i < j < |disk| ==> disk[i].id < disk[j].id
  }

  /** `recover_and_index` below the compaction clean-up. A refused directory is left as it was;
      otherwise at most the newest segment is shortened. */
  method RecoverAndIndex(lib: Codecs, disk: seq<Segment>) returns (r: Outcome, left: seq<Segment>)
    requires Ascending(disk)
    ensures r == ScanDir(lib, disk, 0, map[], 0)
    ensures left == if r.Scanned? then Repaired(disk, r.end) else disk
  {
    hide ScanSegment;
    left := disk;
    var index: Index, end: nat := map[], 0;
    if disk == [] { return Scanned(index, end), left; }
    var newest := disk[|disk| - 1].id;
    for k := 0 to |disk|
      invariant |disk| > 0
      invariant k == |disk| ==> end <= |disk[k - 1].bytes|
      invariant ScanDir(lib, disk, 0, map[], 0) == ScanDir(lib, disk, k, index, end)
      invariant left == if k == |disk| then Repaired(disk, end) else disk
    {
      var scanned, bytes := ScanFile(lib, disk[k].id, disk[k].id == newest, disk[k].bytes, index);
      if scanned.Corrupt? { return scanned, left; }
      index, end := scanned.index, scanned.end;
      left := left[k := Segment(disk[k].id, bytes)];
      if k < |disk| - 1 {
        assert disk[k].bytes[..end] == disk[k].bytes;
        assert left == disk;
      } else {
        assert left == Repaired(disk, end);
      }
    }
    return Scanned(index, end), left;
  }

  // ---------------------------------------------------------------- what the writer leaves

  /** A segment as it was written: its header and its records. */
  datatype Written = Written(id: nat, head: Bytes, records: seq<Stored>)

  ghost predicate AllStorable(lib: Codecs, rs: seq<Stored>) {
    forall i :: 0 <= i < |rs| ==> Storable(lib, rs[i])
  }

  function RecordsBytes(lib: Codecs, rs: seq<Stored>): Bytes
    requires AllStorable(lib, rs)
  {
    if rs == [] then [] else RecordsBytes(lib, rs[..|rs| - 1]) + RecordBytes(lib, rs[|rs| - 1])
  }

  /** What a scan of these records, the first at `at`, adds to an index. */
  function Indexed(lib: Codecs, seg: nat, rs: seq<Stored>, at: nat, base: Index): Index
    requires AllStorable(lib, rs)
  {
    if rs == [] then base else
    var n := |rs| - 1;
    Indexed(lib, seg, rs[..n], at, base)
      [lib.hash(rs[n].data) := LocationOf(lib, seg, at + |RecordsBytes(lib, rs[..n])|, rs[n])]
  }

  /** Between any two records the bytes are those before, the record, and those after. */
  lemma {:induction false} RecordsSplit(lib: Codecs, rs: seq<Stored>, k: nat)
    requires AllStorable(lib, rs) && k <= |rs|
    ensures RecordsBytes(lib, rs) == RecordsBytes(lib, rs[..k]) + RecordsBytes(lib, rs[k..])
  {
    hide RecordBytes, Storable;
    if k == |rs| {
      assert rs[..k] == rs && rs[k..] == [];
    } else {
      var n := |rs| - 1;
      RecordsSplit(lib, rs[..n], k);
      assert rs[..n][..k] == rs[..k] && rs[..n][k..] == rs[k..][..n - k];
      assert rs[k..][n - k] == rs[n];
    }
  }

  /** A written record with anything behind it is found whole. */
  lemma RecordIsWhole(lib: Codecs, s: Stored, before: Bytes, after: Bytes)
    requires Sane(lib) && Storable(lib, s)
    ensures |RecordBytes(lib, s)| >= 80
    ensures NextRecord(lib, before + RecordBytes(lib, s) + after, |before|) ==
            Whole(HeaderOf(lib, s), |before + RecordBytes(lib, s)|)
  {
    hide EncodeHeader, PayloadOf, PayloadLength, ReadHeader, RecordBytes, Sane, HeaderOf;
    RecordSlices(lib, s, before, after);
    HeaderSize(lib, s);
    HeaderRoundTrip(lib, HeaderOf(lib, s), PayloadOf(lib, s) + after);
  }

  /** A written record cut anywhere is torn. */
  lemma RecordIsTorn(lib: Codecs, s: Stored, before: Bytes, cut: nat)
    requires Sane(lib) && Storable(lib, s) && 0 < cut < |RecordBytes(lib, s)|
    ensures NextRecord(lib, before + RecordBytes(lib, s)[..cut], |before|) == Torn
  {
    hide EncodeHeader, PayloadOf, PayloadLength, ReadHeader, RecordBytes, Sane, HeaderOf;
    RecordSlices(lib, s, [], []);
    HeaderSize(lib, s);
    var h, p := EncodeHeader(lib, HeaderOf(lib, s)), PayloadOf(lib, s);
    var b := RecordBytes(lib, s);
    assert [] + b + [] == b && p + [] == p;
    var file := before + b[..cut];
    assert file[|before|..] == b[..cut];
    HeaderRoundTrip(lib, HeaderOf(lib, s), []);
    if cut < 80 {
      HeaderCut(lib, HeaderOf(lib, s), cut);
      assert b[..cut] == h[..cut];
    } else {
      HeaderRoundTrip(lib, HeaderOf(lib, s), p[..cut - 80]);
      assert b[..cut] == h + p[..cut - 80];
    }
  }

  lemma IndexedFields(lib: Codecs, seg: nat, at: nat, s: Stored)
    requires Storable(lib, s)
    ensures HeaderOf(lib, s).id == lib.hash(s.data) && Entry(seg, at, HeaderOf(lib, s)) == LocationOf(lib, seg, at, s)
  {
  }

  lemma ScanStep(lib: Codecs, seg: nat, newest: bool, before: Bytes, s: Stored, after: Bytes, index: Index)
    requires Sane(lib) && Storable(lib, s)
    ensures var file := before + RecordBytes(lib, s) + after;
            ScanRecords(lib, seg, newest, file, |before|, index) ==
            ScanRecords(lib, seg, newest, file, |before + RecordBytes(lib, s)|, index[lib.hash(s.data) :=
                LocationOf(lib, seg, |before|, s)])
  {
    hide Sane, RecordBytes, Storable, NextRecord, HeaderOf, LocationOf, Entry;
    RecordIsWhole(lib, s, before, after);
    IndexedFields(lib, seg, |before|, s);
  }

  lemma RecordsAround(lib: Codecs, seg: nat, rs: seq<Stored>, k: nat, at: nat, base: Index)
    requires AllStorable(lib, rs) && k < |rs|
    ensures RecordsBytes(lib, rs[..k + 1]) == RecordsBytes(lib, rs[..k]) + RecordBytes(lib, rs[k])
    ensures RecordsBytes(lib, rs) ==
            RecordsBytes(lib, rs[..k]) + RecordBytes(lib, rs[k]) + RecordsBytes(lib, rs[k + 1..])
    ensures Indexed(lib, seg, rs[..k + 1], at, base) ==
            Indexed(lib, seg, rs[..k], at, base)
              [lib.hash(rs[k].data) := LocationOf(lib, seg, at + |RecordsBytes(lib, rs[..k])|, rs[k])]
  {
    hide RecordBytes, Storable, LocationOf;
    RecordsSplit(lib, rs, k + 1);
    assert rs[..k + 1][..k] == rs[..k];
  }

  /** The scan passes over written records, whatever stands behind them. */
  lemma {:induction false} ScanPasses(lib: Codecs, seg: nat, newest: bool, head: Bytes, rs: seq<Stored>, k: nat,
                                      tail: Bytes, base: Index)
    requires Sane(lib) && AllStorable(lib, rs) && k <= |rs|
    ensures var file := head + RecordsBytes(lib, rs) + tail;
            var from := |head| + |RecordsBytes(lib, rs[..k])|;
            && from <= |head| + |RecordsBytes(lib, rs)|
            && ScanRecords(lib, seg, newest, file, from, Indexed(lib, seg, rs[..k], |head|, base)) ==
               ScanRecords(lib, seg, newest, file, |head| + |RecordsBytes(lib, rs)|,
                           Indexed(lib, seg, rs, |head|, base))
    decreases |rs| - k
  {
    hide Sane, RecordBytes, Storable, LocationOf, ScanRecords, Indexed, RecordsBytes;
    if k == |rs| {
      assert rs[..k] == rs;
    } else {
      RecordsAround(lib, seg, rs, k, |head|, base);
      var before, after := head + RecordsBytes(lib, rs[..k]), RecordsBytes(lib, rs[k + 1..]) + tail;
      var r := RecordBytes(lib, rs[k]);
      assert head + RecordsBytes(lib, rs) + tail == before + r + after;
      ScanStep(lib, seg, newest, before, rs[k], after, Indexed(lib, seg, rs[..k], |head|, base));
      ScanPasses(lib, seg, newest, head, rs, k + 1, tail, base);
    }
  }

  /** A whole segment, torn or damaged behind its records. */
  lemma ScanOfTail(lib: Codecs, seg: nat, newest: bool, head: Bytes, rs: seq<Stored>, tail: Bytes, base: Index)
    requires Sane(lib) && AllStorable(lib, rs) && |head| == 32 && HeaderAccepted(head)
    ensures var file := head + RecordsBytes(lib, rs) + tail;
            var end := 32 + |RecordsBytes(lib, rs)|;
            ScanSegment(lib, seg, newest, file, base) ==
            if tail == [] || (NextRecord(lib, file, end).Torn? &&
                newest) then Scanned(Indexed(lib, seg, rs, 32, base), end)
            else if NextRecord(lib, file, end).Whole? then
              ScanRecords(lib, seg, newest, file, end, Indexed(lib, seg, rs, 32, base))
            else Corrupt(end)
  {
    hide Sane, RecordBytes, Storable, NextRecord, Indexed, FromLe, RecordsBytes;
    var file := head + RecordsBytes(lib, rs) + tail;
    HeaderStays(head, RecordsBytes(lib, rs) + tail);
    assert file == head + (RecordsBytes(lib, rs) + tail);
    ScanPasses(lib, seg, newest, head, rs, 0, tail, base);
    assert rs[..0] == [];
    NothingIndexed(lib, seg, base);
  }

  lemma NothingIndexed(lib: Codecs, seg: nat, base: Index)
    ensures Indexed(lib, seg, [], 32, base) == base && RecordsBytes(lib, []) == []
  {
  }

  lemma HeaderStays(head: Bytes, rest: Bytes)
    requires HeaderAccepted(head)
    ensures HeaderAccepted(head + rest)
  {
    assert (head + rest)[..4] == head[..4] && (head + rest)[4..8] == head[4..8];
  }

  /** The headers accepted, byte by byte: the magic, and version 1, 2 or 3. Any other file is refused at offset 0. */
  lemma AcceptedHeaders(lib: Codecs, seg: nat, newest: bool, b: Bytes, index: Index)
    ensures HeaderAccepted(b) <==>
              |b| >= 32 && b[0] == 79 && b[1] == 79 && b[2] == 83 && b[3] == 83 &&
              1 <= b[4] <= 3 && b[5] == 0 && b[6] == 0 && b[7] == 0
    ensures !HeaderAccepted(b) ==> ScanSegment(lib, seg, newest, b, index) == Corrupt(0)
  {
    hide ScanRecords;
    if |b| >= 32 {
      var v := b[4..8];
      assert b[..4] == [b[0], b[1], b[2], b[3]] && v == [b[4], b[5], b[6], b[7]];
      FourBytes(v);
    }
  }

  lemma FourBytes(v: Bytes)
    requires |v| == 4
    ensures var b0: int, b1: int, b2: int, b3: int := v[0], v[1], v[2], v[3];
            FromLe(v) == b0 + 256 * b1 + 65536 * b2 + 16777216 * b3
  {
    var b0: int, b1: int, b2: int, b3: int := v[0], v[1], v[2], v[3];
    var a, b, c := v[1..], v[2..], v[3..];
    assert a[1..] == b && b[1..] == c && c[1..] == [];
    assert FromLe(c) == b3 && FromLe(b) == b2 + 256 * b3 && FromLe(a) == b1 + 256 * FromLe(b);
  }

  lemma WrittenHeader(id: nat, now: nat)
    ensures HeaderAccepted(SegmentHeader(id, now))
  {
    hide Le, FromLe;
    var b := SegmentHeader(id, now);
    assert b[4..8] == Le(3, 4);
    Le4(3);
  }

  /** Every byte cut inside the last record: the newest segment is cut back to exactly that
      record's start, with exactly the earlier records indexed; a sealed one is refused. */
  lemma TornTail(lib: Codecs, seg: nat, newest: bool, head: Bytes, rs: seq<Stored>, s: Stored, cut: nat, base: Index)
    requires Sane(lib) && AllStorable(lib, rs) && |head| == 32 && HeaderAccepted(head)
    requires Storable(lib, s) && 0 < cut < |RecordBytes(lib, s)|
    ensures var end := 32 + |RecordsBytes(lib, rs)|;
            ScanSegment(lib, seg, newest, head + RecordsBytes(lib, rs) + RecordBytes(lib, s)[..cut], base) ==
            if newest then Scanned(Indexed(lib, seg, rs, 32, base), end) else Corrupt(end)
  {
    hide Sane, RecordBytes, Storable, NextRecord, Indexed, HeaderAccepted, RecordsBytes, ScanSegment;
    ScanOfTail(lib, seg, newest, head, rs, RecordBytes(lib, s)[..cut], base);
    RecordIsTorn(lib, s, head + RecordsBytes(lib, rs), cut);
  }

  /** A complete record that fails a check is refused in every segment, wherever it stands. */
  lemma DamagedRecord(lib: Codecs, seg: nat, newest: bool, head: Bytes, rs: seq<Stored>, tail: Bytes, base: Index)
    requires Sane(lib) && AllStorable(lib, rs) && |head| == 32 && HeaderAccepted(head)
    requires ReadHeader(lib, tail).Invalid? ||
             (ReadHeader(lib, tail).Found? &&
              var h := ReadHeader(lib, tail).header;
              h.size + h.payloadLen <= |tail| && lib.crc(tail[h.size..h.size + h.payloadLen]) != h.payloadCrc)
    ensures ScanSegment(lib, seg, newest, head + RecordsBytes(lib, rs) + tail,
            base) == Corrupt(32 + |RecordsBytes(lib, rs)|)
  {
    hide Sane, RecordBytes, Storable, ReadHeader, Indexed, HeaderAccepted, RecordsBytes, ScanSegment;
    ScanOfTail(lib, seg, newest, head, rs, tail, base);
    var before := head + RecordsBytes(lib, rs);
    var file := before + tail;
    assert tail != [];
    assert file[|before|..] == tail;
    if ReadHeader(lib, tail).Found? {
      var h := ReadHeader(lib, tail).header;
      assert file[|before| + h.size..|before| + h.size + h.payloadLen] == tail[h.size..h.size + h.payloadLen];
    }
  }

  /** Scanning whole segments indexes all their records, sealed or not. */
  lemma ScanOfWhole(lib: Codecs, seg: nat, newest: bool, head: Bytes, rs: seq<Stored>, base: Index)
    requires Sane(lib) && AllStorable(lib, rs) && |head| == 32 && HeaderAccepted(head)
    ensures var file := head + RecordsBytes(lib, rs);
            ScanSegment(lib, seg, newest, file, base) == Scanned(Indexed(lib, seg, rs, 32, base), |file|)
  {
    hide Sane, RecordBytes, Storable, NextRecord, Indexed, HeaderAccepted, RecordsBytes, ScanSegment;
    var file := head + RecordsBytes(lib, rs);
    assert file + [] == file;
    ScanOfTail(lib, seg, newest, head, rs, [], base);
  }

  // ---------------------------------------------------------------- any bytes: repair is idempotent

  lemma NextOfPrefix(lib: Codecs, file: Bytes, at: nat, end: nat)
    requires at < |file| && NextRecord(lib, file, at).Whole? && NextRecord(lib, file, at).end <= end <= |file|
    ensures NextRecord(lib, file[..end], at) == NextRecord(lib, file, at)
  {
    hide FromLe;
    var h := NextRecord(lib, file, at).header;
    var b, c := file[at..], file[..end][at..];
    HeaderOfPrefix(lib, b, end - at);
    assert c == b[..end - at];
    assert file[..end][at + h.size..at + h.size + h.payloadLen] == file[at + h.size..at + h.size + h.payloadLen];
  }

  lemma HeaderOfPrefix(lib: Codecs, b: Bytes, n: nat)
    requires n <= |b| && ReadHeader(lib, b).Found? && ReadHeader(lib, b).header.size <= n
    ensures ReadHeader(lib, b[..n]) == ReadHeader(lib, b)
  {
    hide FromLe;
    PrefixSlice(b, n, 0, 4);
    PrefixSlice(b, n, 4, 36);
    PrefixSlice(b, n, 40, 44);
    PrefixSlice(b, n, 44, 48);
    PrefixSlice(b, n, 48, 52);
    PrefixSlice(b, n, 0, 52);
    PrefixSlice(b, n, 52, 56);
    if n >= 80 {
      PrefixSlice(b, n, 0, 76);
      PrefixSlice(b, n, 52, 76);
      PrefixSlice(b, n, 76, 80);
    }
  }

  lemma PrefixSlice(b: Bytes, n: nat, i: nat, j: nat)
    requires i <= j <= n <= |b|
    ensures b[..n][i..j] == b[i..j]
    ensures i == 0 ==> b[..n][..j] == b[..j]
  {
  }

  /** Whatever a file holds, the part a scan keeps scans to the same index with nothing torn, even
      once the segment is sealed. */
  lemma {:induction false} KeptPartRescans(lib: Codecs, seg: nat, newest: bool, sealedLater: bool, file: Bytes,
                                           at: nat, index: Index)
    requires at <= |file|
    requires ScanRecords(lib, seg, newest, file, at, index).Scanned?
    ensures var r := ScanRecords(lib, seg, newest, file, at, index);
            ScanRecords(lib, seg, sealedLater, file[..r.end], at, index) == r
    decreases |file| - at
  {
    hide NextRecord, Entry;
    var r := ScanRecords(lib, seg, newest, file, at, index);
    if at < |file| && NextRecord(lib, file, at).Whole? {
      var h, end := NextRecord(lib, file, at).header, NextRecord(lib, file, at).end;
      KeptPartRescans(lib, seg, newest, sealedLater, file, end, index[h.id := Entry(seg, at, h)]);
      NextOfPrefix(lib, file, at, r.end);
    }
  }
}
