/** The segment store as an object: deduplicating puts, rotation, syncing, losing unsynced bytes,
    reopening, and compaction, with the in-memory index compared to a rescan of the files. */
module SegmentStore {
  import opened Basics
  import opened WalFormat
  import opened SegmentFormat
  import opened SegmentScan

  type Chunks = map<Bytes, Bytes>

  // ---------------------------------------------------------------- a directory as it was written

  ghost predicate Proper(lib: Codecs, w: Written) {
    |w.head| == 32 && HeaderAccepted(w.head) && AllStorable(lib, w.records)
  }

  ghost predicate AllProper(lib: Codecs, log: seq<Written>) {
    forall i :: 0 <= i < |log| ==> Proper(lib, log[i])
  }

  function FileOf(lib: Codecs, w: Written): Segment
    requires Proper(lib, w)
  {
    Segment(w.id, w.head + RecordsBytes(lib, w.records))
  }

  function Disk(lib: Codecs, log: seq<Written>): (disk: seq<Segment>)
    requires AllProper(lib, log)
    ensures |disk| == |log|
  {
    if log == [] then [] else Disk(lib, log[..|log| - 1]) + [FileOf(lib, log[|log| - 1])]
  }

  /** What a full rescan finds. */
  function IndexAll(lib: Codecs, log: seq<Written>): Index
    requires AllProper(lib, log)
  {
    if log == [] then map[] else
    var w := log[|log| - 1];
    Indexed(lib, w.id, w.records, 32, IndexAll(lib, log[..|log| - 1]))
  }

  /** The bytes put under each chunk id. */
  function ChunksOf(lib: Codecs, rs: seq<Stored>, base: Chunks): Chunks {
    if rs == [] then base else
    var n := |rs| - 1;
    ChunksOf(lib, rs[..n], base)[lib.hash(rs[n].data) := rs[n].data]
  }

  function ChunksAll(lib: Codecs, log: seq<Written>): Chunks {
    if log == [] then map[] else ChunksOf(lib, log[|log| - 1].records, ChunksAll(lib, log[..|log| - 1]))
  }

  /** The data of all records. */
  function DataIn(rs: seq<Stored>): set<Bytes> {
    set k | 0 <= k < |rs| :: rs[k].data
  }

  function DataOf(log: seq<Written>): set<Bytes> {
    if log == [] then {} else DataOf(log[..|log| - 1]) + DataIn(log[|log| - 1].records)
  }

  /** The hash tells the stored data apart. A chunk may be stored several times. */
  ghost predicate Injective(lib: Codecs, data: set<Bytes>) {
    forall a, b :: a in data && b in data && lib.hash(a) == lib.hash(b) ==> a == b
  }

  lemma {:induction false} DiskAt(lib: Codecs, log: seq<Written>, i: nat)
    requires AllProper(lib, log) && i < |log|
    ensures Disk(lib, log)[i] == FileOf(lib, log[i])
  {
    hide FileOf, Proper;
    if i < |log| - 1 { DiskAt(lib, log[..|log| - 1], i); }
  }

  lemma {:induction false} DiskTake(lib: Codecs, log: seq<Written>, k: nat)
    requires AllProper(lib, log) && k <= |log|
    ensures Disk(lib, log[..k]) == Disk(lib, log)[..k]
  {
    hide FileOf, Proper;
    if k == |log| {
      assert log[..k] == log;
    } else {
      DiskTake(lib, log[..|log| - 1], k);
      assert log[..|log| - 1][..k] == log[..k];
    }
  }

  /** The scan passes over whole segments, whatever the later ones hold. */
  lemma {:induction false} ScanPassesFiles(lib: Codecs, log: seq<Written>, disk: seq<Segment>, k: nat, end: nat)
    requires Sane(lib) && AllProper(lib, log) && k <= |log| <= |disk|
    requires forall i :: 0 <= i < |log| ==> disk[i] == FileOf(lib, log[i])
    requires k == |log| > 0 ==> end == |disk[k - 1].bytes|
    ensures ScanDir(lib, disk, k, IndexAll(lib, log[..k]), end) ==
            ScanDir(lib, disk, |log|, IndexAll(lib, log), if log == [] then end else |disk[|log| - 1].bytes|)
    decreases |log| - k
  {
    hide Sane, Indexed, ScanSegment, RecordsBytes, HeaderAccepted, Storable;
    if k == |log| {
      assert log[..k] == log;
    } else {
      assert Proper(lib, log[k]) && disk[k] == FileOf(lib, log[k]);
      ScanOfWhole(lib, log[k].id, k == |disk| - 1, log[k].head, log[k].records, IndexAll(lib, log[..k]));
      assert log[..k + 1][..k] == log[..k];
      ScanPassesFiles(lib, log, disk, k + 1, |disk[k].bytes|);
    }
  }

  /** A rescan of what was written finds the index of all its records. */
  lemma ScanOfLog(lib: Codecs, log: seq<Written>)
    requires Sane(lib) && AllProper(lib, log) && log != []
    ensures ScanDir(lib, Disk(lib, log), 0, map[], 0) == Scanned(IndexAll(lib, log), |FileOf(lib,
            log[|log| - 1]).bytes|)
  {
    hide Sane, FileOf, Proper, ScanSegment;
    forall i | 0 <= i < |log| ensures Disk(lib, log)[i] == FileOf(lib, log[i]) { DiskAt(lib, log, i); }
    assert log[..0] == [];
    ScanPassesFiles(lib, log, Disk(lib, log), 0, 0);
  }

  // ---------------------------------------------------------------- finding a chunk

  /** The index and the stored bytes agree on one segment: an id is in both or neither, and an
      indexed id is at a record holding the bytes put under it. */
  lemma {:induction false} FindIn(lib: Codecs, seg: nat, rs: seq<Stored>, at: nat, index: Index, base: Chunks,
                                  id: Bytes) returns (k: int)
    requires AllStorable(lib, rs)
    ensures var i, c := Indexed(lib, seg, rs, at, index), ChunksOf(lib, rs, base);
            if 0 <= k < |rs| then
              && id in i && id in c && lib.hash(rs[k].data) == id && c[id] == rs[k].data
              && i[id] == LocationOf(lib, seg, at + |RecordsBytes(lib, rs[..k])|, rs[k])
            else
              && (id in i <==> id in index) && (id in i ==> i[id] == index[id])
              && (id in c <==> id in base) && (id in c ==> c[id] == base[id])
  {
    hide RecordsBytes, Storable, LocationOf;
    if rs == [] { return -1; }
    var n := |rs| - 1;
    if lib.hash(rs[n].data) == id { return n; }
    k := FindIn(lib, seg, rs[..n], at, index, base, id);
    if 0 <= k < n { assert rs[..n][..k] == rs[..k]; } else { k := -1; }
  }

  lemma {:induction false} Find(lib: Codecs, log: seq<Written>, id: Bytes) returns (i: int, k: int)
    requires AllProper(lib, log)
    ensures id in IndexAll(lib, log) <==> id in ChunksAll(lib, log)
    ensures id in IndexAll(lib, log) ==>
              && 0 <= i < |log| && 0 <= k < |log[i].records|
              && lib.hash(log[i].records[k].data) == id && ChunksAll(lib, log)[id] == log[i].records[k].data
              && var at := 32 + |RecordsBytes(lib, log[i].records[..k])|;
              IndexAll(lib, log)[id] == LocationOf(lib, log[i].id, at, log[i].records[k])
  {
    hide RecordsBytes, LocationOf, HeaderAccepted, Indexed, ChunksOf, Storable;
    if log == [] { return -1, -1; }
    var n := |log| - 1;
    assert Proper(lib, log[n]);
    k := FindIn(lib, log[n].id, log[n].records, 32, IndexAll(lib, log[..n]), ChunksAll(lib, log[..n]), id);
    if 0 <= k < |log[n].records| { return n, k; }
    i, k := Find(lib, log[..n], id);
  }

  /** An indexed chunk reads back, through its segment's bytes, as what was put. */
  lemma IndexedReadsBack(lib: Codecs, log: seq<Written>, id: Bytes) returns (i: int)
    requires Sane(lib) && AllProper(lib, log) && id in IndexAll(lib, log)
    ensures id in ChunksAll(lib, log)
    ensures 0 <= i < |log| && IndexAll(lib, log)[id].segment == log[i].id
    ensures lib.hash(ChunksAll(lib, log)[id]) == id
    ensures var loc, data := IndexAll(lib, log)[id], ChunksAll(lib, log)[id];
            loc.rawLen == |data| && loc.payloadLen == PayloadLength(lib, data) && loc.payloadOffset == loc.offset + 80
    ensures |ChunksAll(lib, log)[id]| < 0x1_0000_0000 && PayloadLength(lib, ChunksAll(lib, log)[id]) < 0x1_0000_0000
    ensures var data := ChunksAll(lib, log)[id];
            ReadChunk(lib, FileOf(lib, log[i]).bytes, id, IndexAll(lib, log)[id]) ==
            if PayloadLength(lib, data) <= MAX_SEGMENT then Some(data) else None
  {
    hide Sane, RecordBytes, HeaderAccepted, IndexAll, ChunksAll, ReadChunk, PayloadLength, RecordsBytes;
    var k;
    i, k := Find(lib, log, id);
    var rs := log[i].records;
    assert Proper(lib, log[i]) && Storable(lib, rs[k]);
    RecordsAround(lib, log[i].id, rs, k, 32, map[]);
    var before, after := log[i].head + RecordsBytes(lib, rs[..k]), RecordsBytes(lib, rs[k + 1..]);
    assert FileOf(lib, log[i]).bytes == before + RecordBytes(lib, rs[k]) + after;
    ReadBack(lib, rs[k], before, after, log[i].id);
  }

  // ---------------------------------------------------------------- losing the end of the last segment

  /** How many records lie wholly inside the first `c` bytes. */
  function Kept(lib: Codecs, rs: seq<Stored>, c: nat): (j: nat)
    requires AllStorable(lib, rs)
    ensures j <= |rs|
  {
    if rs == [] || |RecordsBytes(lib, rs)| <= c then |rs| else Kept(lib, rs[..|rs| - 1], c)
  }

  lemma {:induction false} KeptIsMonotone(lib: Codecs, rs: seq<Stored>, c: nat, d: nat)
    requires AllStorable(lib, rs) && c <= d
    ensures Kept(lib, rs, c) <= Kept(lib, rs, d)
  {
    hide RecordsBytes, Storable;
    if rs != [] { KeptIsMonotone(lib, rs[..|rs| - 1], c, d); }
  }

  lemma {:induction false} KeptOfKept(lib: Codecs, rs: seq<Stored>, c: nat, d: nat)
    requires AllStorable(lib, rs) && d <= c
    ensures AllStorable(lib, rs[..Kept(lib, rs, c)]) && Kept(lib, rs[..Kept(lib, rs, c)], d) == Kept(lib, rs, d)
  {
    hide RecordsBytes, Storable;
    if rs == [] || |RecordsBytes(lib, rs)| <= c {
      assert rs[..|rs|] == rs;
    } else {
      var n := |rs| - 1;
      KeptOfKept(lib, rs[..n], c, d);
      assert rs[..n][..Kept(lib, rs, c)] == rs[..Kept(lib, rs, c)];
    }
  }

  /** Records cut anywhere: the whole ones, then nothing or a proper part of the next. */
  lemma {:induction false} CutRecords(lib: Codecs, rs: seq<Stored>, c: nat) returns (m: nat)
    requires AllStorable(lib, rs) && c <= |RecordsBytes(lib, rs)|
    ensures var j := Kept(lib, rs, c);
            if j < |rs| then
              m < |RecordBytes(lib, rs[j])| &&
                  RecordsBytes(lib, rs)[..c] == RecordsBytes(lib, rs[..j]) + RecordBytes(lib, rs[j])[..m]
            else RecordsBytes(lib, rs)[..c] == RecordsBytes(lib, rs[..j])
  {
    hide RecordBytes, Storable;
    m := 0;
    if rs == [] || |RecordsBytes(lib, rs)| <= c {
      assert rs[..|rs|] == rs;
      return;
    }
    var n := |rs| - 1;
    var pre := RecordsBytes(lib, rs[..n]);
    if |pre| <= c {
      m := c - |pre|;
      assert rs[..n][..n] == rs[..n];
    } else {
      m := CutRecords(lib, rs[..n], c);
      var j := Kept(lib, rs[..n], c);
      assert RecordsBytes(lib, rs)[..c] == pre[..c];
      assert j < n ==> rs[..n][..j] == rs[..j];
    }
  }

  /** The log with its last segment cut to `c` bytes and repaired. */
  function CutLog(lib: Codecs, log: seq<Written>, c: nat): (cut: seq<Written>)
    requires AllProper(lib, log) && log != [] && c >= 32
    ensures |cut| == |log| && AllProper(lib, cut)
  {
    var n := |log| - 1;
    var w := log[n];
    assert Proper(lib, w);
    log[..n] + [Written(w.id, w.head, w.records[..Kept(lib, w.records, c - 32)])]
  }

  /** Scanning a directory whose newest segment was cut anywhere. */
  lemma ScanOfCut(lib: Codecs, log: seq<Written>, disk: seq<Segment>, c: nat)
    requires Sane(lib) && AllProper(lib, log) && log != [] && |disk| == |log|
    requires 32 <= c <= |FileOf(lib, log[|log| - 1]).bytes|
    requires disk[..|log| - 1] == Disk(lib, log)[..|log| - 1]
    requires disk[|log| - 1] == Segment(log[|log| - 1].id, FileOf(lib, log[|log| - 1]).bytes[..c])
    ensures var cut := CutLog(lib, log, c);
            var end := |FileOf(lib, cut[|log| - 1]).bytes|;
            && end <= c
            && ScanDir(lib, disk, 0, map[], 0) == Scanned(IndexAll(lib, cut), end)
            && Repaired(disk, end) == Disk(lib, cut)
  {
    hide Sane, Indexed, ScanSegment, RecordsBytes, HeaderAccepted, Kept, AllStorable;
    var n := |log| - 1;
    var w, cut := log[n], CutLog(lib, log, c);
    forall i | 0 <= i < n ensures disk[i] == FileOf(lib, log[i]) {
      DiskAt(lib, log, i);
      assert disk[..n][i] == disk[i];
    }
    assert log[..0] == [] == log[..n][..0] && cut[..n] == log[..n];
    ScanPassesFiles(lib, log[..n], disk, 0, 0);
    ScanOfCutSegment(lib, w, c, IndexAll(lib, log[..n]));
    DiskTake(lib, log, n);
  }

  lemma ScanOfCutSegment(lib: Codecs, w: Written, c: nat, base: Index)
    requires Sane(lib) && Proper(lib, w) && 32 <= c <= |FileOf(lib, w).bytes|
    ensures AllStorable(lib, w.records[..Kept(lib, w.records, c - 32)])
    ensures var kept := w.records[..Kept(lib, w.records, c - 32)];
            var bytes := w.head + RecordsBytes(lib, kept);
            && |bytes| <= c && FileOf(lib, w).bytes[..c][..|bytes|] == bytes
            && ScanSegment(lib, w.id, true, FileOf(lib, w).bytes[..c], base) ==
               Scanned(Indexed(lib, w.id, kept, 32, base), |bytes|)
  {
    hide Sane, Indexed, ScanSegment, RecordsBytes, HeaderAccepted, Kept, RecordBytes, Storable;
    var rs := w.records;
    var j := Kept(lib, rs, c - 32);
    var m := CutRecords(lib, rs, c - 32);
    var file := FileOf(lib, w).bytes[..c];
    assert file == w.head + RecordsBytes(lib, rs)[..c - 32];
    var kept := w.head + RecordsBytes(lib, rs[..j]);
    if j < |rs| && m > 0 {
      assert Storable(lib, rs[j]);
      assert file == kept + RecordBytes(lib, rs[j])[..m];
      TornTail(lib, w.id, true, w.head, rs[..j], rs[j], m, base);
    } else {
      assert file == kept;
      ScanOfWhole(lib, w.id, true, w.head, rs[..j], base);
    }
  }

  // ---------------------------------------------------------------- fewer records, smaller maps

  predicate Submap<K(==), V(==)>(a: map<K, V>, b: map<K, V>) {
    forall k :: k in a ==> k in b && b[k] == a[k]
  }

  lemma {:induction false} KeysAgree(lib: Codecs, seg: nat, rs: seq<Stored>, at: nat, index: Index, base: Chunks)
    requires AllStorable(lib, rs) && index.Keys == base.Keys
    ensures Indexed(lib, seg, rs, at, index).Keys == ChunksOf(lib, rs, base).Keys
  {
    hide RecordsBytes, Storable, LocationOf;
    if rs != [] { KeysAgree(lib, seg, rs[..|rs| - 1], at, index, base); }
  }

  lemma {:induction false} AllKeysAgree(lib: Codecs, log: seq<Written>)
    requires AllProper(lib, log)
    ensures IndexAll(lib, log).Keys == ChunksAll(lib, log).Keys
  {
    hide RecordsBytes, Storable, HeaderAccepted, Indexed, ChunksOf;
    if log != [] {
      var n := |log| - 1;
      AllKeysAgree(lib, log[..n]);
      assert Proper(lib, log[n]);
      KeysAgree(lib, log[n].id, log[n].records, 32, IndexAll(lib, log[..n]), ChunksAll(lib, log[..n]));
    }
  }

  /** A chunk map holds exactly these data, each under its hash. */
  ghost predicate Holds(lib: Codecs, chunks: Chunks, data: set<Bytes>) {
    && (forall id :: id in chunks ==> chunks[id] in data && lib.hash(chunks[id]) == id)
    && (forall d :: d in data ==> lib.hash(d) in chunks)
  }

  lemma DataInMore(rs: seq<Stored>, s: Stored)
    ensures DataIn(rs + [s]) == DataIn(rs) + {s.data}
  {
    var more := rs + [s];
    assert more[|rs|] == s;
    forall d | d in DataIn(rs) ensures d in DataIn(more) {
      var k :| 0 <= k < |rs| && rs[k].data == d;
      assert more[k].data == d;
    }
  }

  lemma {:induction false} RecordsHold(lib: Codecs, rs: seq<Stored>, base: Chunks, data: set<Bytes>)
    requires Holds(lib, base, data)
    ensures Holds(lib, ChunksOf(lib, rs, base), data + DataIn(rs))
  {
    if rs == [] {
      assert DataIn(rs) == {} && data + {} == data;
    } else {
      var n := |rs| - 1;
      RecordsHold(lib, rs[..n], base, data);
      DataInMore(rs[..n], rs[n]);
      assert rs == rs[..n] + [rs[n]];
    }
  }

  lemma {:induction false} ChunksHold(lib: Codecs, log: seq<Written>)
    ensures Holds(lib, ChunksAll(lib, log), DataOf(log))
  {
    if log != [] {
      hide Holds, ChunksOf, DataIn;
      ChunksHold(lib, log[..|log| - 1]);
      RecordsHold(lib, log[|log| - 1].records, ChunksAll(lib, log[..|log| - 1]), DataOf(log[..|log| - 1]));
    }
  }

  /** Fewer data, smaller map; the same data, the same map. */
  lemma HeldSubmap(lib: Codecs, a: Chunks, b: Chunks, fewer: set<Bytes>, more: set<Bytes>)
    requires Holds(lib, a, fewer) && Holds(lib, b, more) && fewer <= more && Injective(lib, more)
    ensures Submap(a, b) && (fewer == more ==> a == b)
  {
    forall id | id in a ensures id in b && b[id] == a[id] {
      assert lib.hash(a[id]) == id && lib.hash(b[id]) == id;
    }
    if fewer == more {
      forall id | id in b ensures id in a { assert b[id] in fewer; }
    }
  }

  lemma Extended(lib: Codecs, log: seq<Written>, w: Written)
    requires AllProper(lib, log) && Proper(lib, w)
    ensures AllProper(lib, log + [w])
    ensures Disk(lib, log + [w]) == Disk(lib, log) + [FileOf(lib, w)]
    ensures IndexAll(lib, log + [w]) == Indexed(lib, w.id, w.records, 32, IndexAll(lib, log))
    ensures ChunksAll(lib, log + [w]) == ChunksOf(lib, w.records, ChunksAll(lib, log))
    ensures DataOf(log + [w]) == DataOf(log) + DataIn(w.records)
  {
  }

  lemma CutLogData(lib: Codecs, log: seq<Written>, c: nat)
    requires AllProper(lib, log) && log != [] && c >= 32
    ensures var w := log[|log| - 1];
            && AllStorable(lib, w.records)
            && DataOf(CutLog(lib, log, c)) ==
               DataOf(log[..|log| - 1]) + DataIn(w.records[..Kept(lib, w.records, c - 32)])
            && DataOf(log) == DataOf(log[..|log| - 1]) + DataIn(w.records)
  {
    hide RecordsBytes, Storable, HeaderAccepted, Kept, DataIn;
    var n := |log| - 1;
    assert Proper(lib, log[n]);
    assert CutLog(lib, log, c)[..n] == log[..n];
  }

  lemma CutData(lib: Codecs, log: seq<Written>, c: nat, d: nat)
    requires AllProper(lib, log) && log != [] && 32 <= c <= d
    ensures DataOf(CutLog(lib, log, c)) <= DataOf(CutLog(lib, log, d)) <= DataOf(log)
  {
    hide AllProper, AllStorable, Kept, DataIn, DataOf, CutLog;
    CutLogData(lib, log, c);
    CutLogData(lib, log, d);
    var rs := log[|log| - 1].records;
    KeptIsMonotone(lib, rs, c - 32, d - 32);
    FewerRecords(rs, Kept(lib, rs, c - 32), Kept(lib, rs, d - 32));
  }

  /** Cutting at an earlier byte keeps a part of what cutting at a later one keeps, and of everything. */
  lemma CutIsSubmap(lib: Codecs, log: seq<Written>, c: nat, d: nat)
    requires AllProper(lib, log) && log != [] && Injective(lib, DataOf(log)) && 32 <= c <= d
    ensures DataOf(CutLog(lib, log, c)) <= DataOf(CutLog(lib, log, d)) <= DataOf(log)
    ensures Injective(lib, DataOf(CutLog(lib, log, c)))
    ensures Submap(ChunksAll(lib, CutLog(lib, log, c)), ChunksAll(lib, CutLog(lib, log, d)))
    ensures IndexAll(lib, CutLog(lib, log, c)).Keys <= IndexAll(lib, CutLog(lib, log, d)).Keys
  {
    hide AllProper, CutLog, IndexAll, ChunksAll, DataOf, Holds;
    CutData(lib, log, c, d);
    var a, b := CutLog(lib, log, c), CutLog(lib, log, d);
    ChunksHold(lib, a);
    ChunksHold(lib, b);
    HeldSubmap(lib, ChunksAll(lib, a), ChunksAll(lib, b), DataOf(a), DataOf(b));
    AllKeysAgree(lib, a);
    AllKeysAgree(lib, b);
  }

  lemma FewerRecords(rs: seq<Stored>, i: nat, j: nat)
    requires i <= j <= |rs|
    ensures DataIn(rs[..i]) <= DataIn(rs[..j]) <= DataIn(rs)
  {
    forall d | d in DataIn(rs[..i]) ensures d in DataIn(rs[..j]) {
      var k :| 0 <= k < i && rs[..i][k].data == d;
      assert rs[..j][k].data == d;
    }
    forall d | d in DataIn(rs[..j]) ensures d in DataIn(rs) {
      var k :| 0 <= k < j && rs[..j][k].data == d;
      assert rs[k].data == d;
    }
  }

  /** Nothing is lost by a cut at the very end. */
  lemma CutAtEnd(lib: Codecs, log: seq<Written>)
    requires AllProper(lib, log) && log != []
    ensures |FileOf(lib, log[|log| - 1]).bytes| >= 32 && CutLog(lib, log, |FileOf(lib, log[|log| - 1]).bytes|) == log
  {
    hide RecordsBytes, Storable, HeaderAccepted;
    var w := log[|log| - 1];
    assert Proper(lib, w);
    assert w.records[..|w.records|] == w.records;
  }

  lemma CutOfCut(lib: Codecs, log: seq<Written>, c: nat, d: nat)
    requires AllProper(lib, log) && log != [] && 32 <= d <= c
    ensures CutLog(lib, CutLog(lib, log, c), d) == CutLog(lib, log, d)
  {
    hide RecordsBytes, Storable, HeaderAccepted, Kept;
    var n := |log| - 1;
    var w := log[n];
    assert Proper(lib, w);
    var k := Kept(lib, w.records, c - 32);
    KeptOfKept(lib, w.records, c - 32, d - 32);
    KeptIsMonotone(lib, w.records, d - 32, c - 32);
    assert CutLog(lib, log, c)[..n] == log[..n];
    assert w.records[..k][..Kept(lib, w.records, d - 32)] == w.records[..Kept(lib, w.records, d - 32)];
  }

  // ---------------------------------------------------------------- growing a log

  lemma RecordAppended(lib: Codecs, log: seq<Written>, s: Stored) returns (grown: seq<Written>)
    requires Sane(lib) && AllProper(lib, log) && log != [] && Injective(lib, DataOf(log)) && Storable(lib, s)
    requires lib.hash(s.data) !in IndexAll(lib, log)
    ensures |grown| == |log| && AllProper(lib, grown)
    ensures DataOf(grown) == DataOf(log) + {s.data} && Injective(lib, DataOf(grown))
    ensures grown[..|log| - 1] == log[..|log| - 1]
    ensures var w := log[|log| - 1]; grown[|log| - 1] == Written(w.id, w.head, w.records + [s])
    ensures var n := |log| - 1;
            var file := FileOf(lib, log[n]);
            && (forall i :: 0 <= i < |log| ==> grown[i].id == log[i].id)
            && FileOf(lib, grown[n]) == Segment(file.id, file.bytes + RecordBytes(lib, s))
            && Disk(lib, grown) == Disk(lib, log)[n := FileOf(lib, grown[n])]
            && IndexAll(lib, grown) ==
               IndexAll(lib, log)[lib.hash(s.data) := LocationOf(lib, log[n].id, |file.bytes|, s)]
            && ChunksAll(lib, grown) == ChunksAll(lib, log)[lib.hash(s.data) := s.data]
  {
    hide Storable, HeaderAccepted, IndexAll, ChunksAll, Injective, DataOf, DataIn, Disk, Sane, RecordBytes;
    hide LocationOf, Indexed, ChunksOf, RecordsBytes;
    var n := |log| - 1;
    var w := log[n];
    assert Proper(lib, w);
    assert log == log[..n] + [w];
    var more := Written(w.id, w.head, w.records + [s]);
    grown := log[..n] + [more];
    AllKeysAgree(lib, log);
    Extended(lib, log[..n], w);
    RecordsExtended(lib, w, s, IndexAll(lib, log[..n]), ChunksAll(lib, log[..n]));
    Extended(lib, log[..n], more);
    DataInMore(w.records, s);
    NewData(lib, log, s.data);
  }

  lemma NewData(lib: Codecs, log: seq<Written>, data: Bytes)
    requires Injective(lib, DataOf(log)) && lib.hash(data) !in ChunksAll(lib, log)
    ensures Injective(lib, DataOf(log) + {data})
  {
    hide ChunksAll, DataOf;
    ChunksHold(lib, log);
  }

  lemma RecordsExtended(lib: Codecs, w: Written, s: Stored, index: Index, base: Chunks)
    requires Proper(lib, w) && Storable(lib, s)
    ensures var more := Written(w.id, w.head, w.records + [s]);
            && Proper(lib, more)
            && FileOf(lib, more).bytes == FileOf(lib, w).bytes + RecordBytes(lib, s)
            && Indexed(lib, w.id, more.records, 32, index) ==
               Indexed(lib, w.id, w.records, 32, index)
                 [lib.hash(s.data) := LocationOf(lib, w.id, |FileOf(lib, w).bytes|, s)]
            && ChunksOf(lib, more.records, base) == ChunksOf(lib, w.records, base)[lib.hash(s.data) := s.data]
  {
    hide Storable, HeaderAccepted, RecordBytes, LocationOf;
    var rs := w.records + [s];
    assert rs[..|w.records|] == w.records;
  }

  lemma SegmentAdded(lib: Codecs, log: seq<Written>, id: nat, head: Bytes) returns (grown: seq<Written>)
    requires AllProper(lib, log) && Injective(lib, DataOf(log)) && |head| == 32 && HeaderAccepted(head)
    ensures grown == log + [Written(id, head, [])] && AllProper(lib, grown) && DataOf(grown) == DataOf(log)
    ensures Disk(lib, grown) == Disk(lib, log) + [Segment(id, head)]
    ensures FileOf(lib, grown[|log|]) == Segment(id, head)
    ensures IndexAll(lib, grown) == IndexAll(lib, log) && ChunksAll(lib, grown) == ChunksAll(lib, log)
  {
    hide HeaderAccepted, IndexAll, ChunksAll, DataOf, Disk;
    var w := Written(id, head, []);
    grown := log + [w];
    Extended(lib, log, w);
    assert head + [] == head;
  }

  // ---------------------------------------------------------------- the store

  function Lookup(files: seq<Segment>, id: nat): (r: Option<Bytes>) {
    if files == [] then None
    else if files[|files| - 1].id == id then Some(files[|files| - 1].bytes)
    else Lookup(files[..|files| - 1], id)
  }

  lemma {:induction false} LookupFinds(files: seq<Segment>, i: nat)
    requires Ascending(files) && i < |files|
    ensures Lookup(files, files[i].id) == Some(files[i].bytes)
  {
    if i < |files| - 1 { LookupFinds(files[..|files| - 1], i); }
  }

  /** The in-memory index is what a rescan finds, the writer stands at the end of the last segment,
      sealed segments are durable, and the hash tells the stored data apart. */
  ghost predicate Consistent(lib: Codecs, log: seq<Written>, files: seq<Segment>, index: Index,
                             current: nat, offset: nat, durable: seq<nat>)
  {
    && Sane(lib) && log != [] && AllProper(lib, log) && Injective(lib, DataOf(log))
    && files == Disk(lib, log) && Ascending(files)
    && index == IndexAll(lib, log)
    && current == log[|log| - 1].id && offset == |FileOf(lib, log[|log| - 1]).bytes|
    && |durable| == |files| && 32 <= durable[|durable| - 1] <= offset
    && SealedDurable(files, durable)
  }

  ghost predicate SealedDurable(files: seq<Segment>, durable: seq<nat>) {
    |durable| == |files| && forall i :: 0 <= i < |durable| - 1 ==> durable[i] == |files[i].bytes|
  }

  /** The index of a consistent store is what reopening its directory would build. */
  lemma IndexIsRescan(lib: Codecs, log: seq<Written>, files: seq<Segment>, index: Index, current: nat, offset: nat,
                      durable: seq<nat>)
    requires Consistent(lib, log, files, index, current, offset, durable)
    ensures ScanDir(lib, files, 0, map[], 0) == Scanned(index, offset)
    ensures Repaired(files, offset) == files
  {
    hide Sane, Injective, DataOf, IndexAll, ScanDir, HeaderAccepted, RecordsBytes, Disk;
    ScanOfLog(lib, log);
    DiskAt(lib, log, |log| - 1);
    var last := files[|files| - 1];
    assert last.bytes[..offset] == last.bytes;
  }

  lemma SyncedConsistent(lib: Codecs, log: seq<Written>, files: seq<Segment>, index: Index, current: nat, offset: nat,
                         durable: seq<nat>)
    requires Consistent(lib, log, files, index, current, offset, durable)
    ensures Consistent(lib, log, files, index, current, offset, durable[|durable| - 1 := offset])
    ensures offset >= 32 && CutLog(lib, log, offset) == log
  {
    hide Sane, Injective, DataOf, IndexAll, HeaderAccepted, RecordsBytes, Disk, CutLog;
    CutAtEnd(lib, log);
  }

  /** Rotating keeps a store consistent because the segment it seals was synced first. */
  lemma RotatedConsistent(lib: Codecs, log: seq<Written>, files: seq<Segment>, index: Index, current: nat, offset: nat,
                          durable: seq<nat>, head: Bytes) returns (grown: seq<Written>)
    requires Consistent(lib, log, files, index, current, offset, durable) && durable[|durable| - 1] == offset
    requires |head| == 32 && HeaderAccepted(head)
    ensures Consistent(lib, grown, files + [Segment(current + 1, head)], index, current + 1, 32, durable + [32])
    ensures ChunksAll(lib, grown) == ChunksAll(lib, log) && CutLog(lib, grown, 32) == grown
  {
    hide Sane, Injective, DataOf, IndexAll, HeaderAccepted, RecordsBytes, Disk, CutLog, ChunksAll;
    grown := SegmentAdded(lib, log, current + 1, head);
    DiskAt(lib, log, |log| - 1);
    CutAtEnd(lib, grown);
  }

  lemma AppendedConsistent(lib: Codecs, log: seq<Written>, files: seq<Segment>, index: Index, current: nat, offset: nat,
                           durable: seq<nat>, s: Stored) returns (grown: seq<Written>)
    requires Consistent(lib, log, files, index, current, offset, durable)
    requires Storable(lib, s) && lib.hash(s.data) !in index
    ensures var n := |files| - 1;
            var bytes := files[n].bytes + RecordBytes(lib, s);
            Consistent(lib, grown, files[n := Segment(current, bytes)],
                       index[lib.hash(s.data) := LocationOf(lib, current, offset, s)], current, |bytes|, durable)
    ensures files[|files| - 1].id == current && |files[|files| - 1].bytes| == offset
    ensures ChunksAll(lib, grown) == ChunksAll(lib, log)[lib.hash(s.data) := s.data]
    ensures CutLog(lib, grown, durable[|durable| - 1]) == CutLog(lib, log, durable[|durable| - 1])
  {
    hide Sane, Injective, DataOf, IndexAll, HeaderAccepted, RecordsBytes, Disk, CutLog, ChunksAll, RecordBytes,
         Storable, LocationOf;
    grown := RecordAppended(lib, log, s);
    DiskAt(lib, log, |log| - 1);
    AppendedCut(lib, log, grown, s, durable[|durable| - 1]);
  }

  /** What is appended behind the durable part is not durable. */
  lemma AppendedCut(lib: Codecs, log: seq<Written>, grown: seq<Written>, s: Stored, d: nat)
    requires Sane(lib) && AllProper(lib, log) && AllProper(lib, grown) && Storable(lib, s)
    requires log != [] && |grown| == |log|
    requires grown[..|log| - 1] == log[..|log| - 1]
    requires var w := log[|log| - 1]; grown[|log| - 1] == Written(w.id, w.head, w.records + [s])
    requires 32 <= d <= |FileOf(lib, log[|log| - 1]).bytes|
    ensures CutLog(lib, grown, d) == CutLog(lib, log, d)
  {
    hide Sane, HeaderAccepted, Storable, RecordBytes;
    var n := |log| - 1;
    var w := log[n];
    assert Proper(lib, w) && Proper(lib, grown[n]);
    RecordIsWhole(lib, s, [], []);
    var rs := w.records + [s];
    assert rs[..|w.records|] == w.records;
    var k := Kept(lib, w.records, d - 32);
    assert rs[..k] == w.records[..k];
  }

  /** The directory after each file lost the bytes behind its cut. */
  function CutFiles(files: seq<Segment>, cuts: seq<nat>): (left: seq<Segment>)
    requires |cuts| == |files| && forall i :: 0 <= i < |files| ==> cuts[i] <= |files[i].bytes|
    ensures |left| == |files|
    ensures forall i :: 0 <= i < |files| ==> left[i] == Segment(files[i].id, files[i].bytes[..cuts[i]])
  {
    seq(|files|, i requires 0 <= i < |files| => Segment(files[i].id, files[i].bytes[..cuts[i]]))
  }

  lemma CutDisk(lib: Codecs, log: seq<Written>, files: seq<Segment>, durable: seq<nat>, cuts: seq<nat>)
    requires log != [] && AllProper(lib, log) && files == Disk(lib, log) && Ascending(files) &&
             SealedDurable(files, durable)
    requires |cuts| == |files| && forall i :: 0 <= i < |files| ==> durable[i] <= cuts[i] <= |files[i].bytes|
    ensures var disk, n := CutFiles(files, cuts), |files| - 1;
            && Ascending(disk) && disk[..n] == files[..n] && files[n] == FileOf(lib, log[n])
            && disk[n] == Segment(log[n].id, FileOf(lib, log[n]).bytes[..cuts[n]])
  {
    hide AllProper, Disk, Proper, FileOf;
    var n := |files| - 1;
    DiskAt(lib, log, n);
    FileId(lib, log, n);
    forall i | 0 <= i < n ensures CutFiles(files, cuts)[i] == files[i] {
      assert files[i].bytes[..cuts[i]] == files[i].bytes;
    }
  }

  lemma FileId(lib: Codecs, log: seq<Written>, i: nat)
    requires AllProper(lib, log) && i < |log|
    ensures Proper(lib, log[i]) && FileOf(lib, log[i]).id == log[i].id
  {
    hide Proper;
  }

  /** A scan of `disk` finds the records of `left` and repairs it to a consistent store. */
  ghost predicate Reopens(lib: Codecs, left: seq<Written>, disk: seq<Segment>, current: nat, durable: seq<nat>)
    requires AllProper(lib, left) && |disk| == |durable| > 0
  {
    && |left| == |disk| && Ascending(disk)
    && var n := |disk| - 1;
    && Proper(lib, left[n])
    && var end := |FileOf(lib, left[n]).bytes|;
    && end <= |disk[n].bytes|
    && ScanDir(lib, disk, 0, map[], 0) == Scanned(IndexAll(lib, left), end)
    && Consistent(lib, left, Repaired(disk, end), IndexAll(lib, left), current, end,
                  if end < |disk[n].bytes| then durable[n := end] else durable)
  }

  /** A consistent store that lost any of its unsynced bytes reopens as a consistent one. */
  lemma ReopenedConsistent(lib: Codecs, log: seq<Written>, files: seq<Segment>, index: Index, current: nat, offset: nat,
                           durable: seq<nat>, cuts: seq<nat>)
    requires Consistent(lib, log, files, index, current, offset, durable)
    requires |cuts| == |files| && forall i :: 0 <= i < |files| ==> durable[i] <= cuts[i] <= |files[i].bytes|
    ensures log != [] && AllProper(lib, log) && |files| == |durable| > 0 && cuts[|cuts| - 1] >= 32
    ensures files[|files| - 1].id == current
    ensures Reopens(lib, CutLog(lib, log, cuts[|cuts| - 1]), CutFiles(files, cuts), current, durable)
  {
    hide Sane, Injective, DataOf, IndexAll, Proper, AllProper, FileOf, Disk, CutLog, ChunksAll, ScanDir;
    hide Ascending, SealedDurable, Repaired;
    var n := |files| - 1;
    var c := cuts[n];
    var disk := CutFiles(files, cuts);
    SealedLengths(files, durable);
    CutDisk(lib, log, files, durable, cuts);
    FileId(lib, log, n);
    ScanOfCut(lib, log, disk, c);
    CutIsSubmap(lib, log, c, c);
    CutLast(lib, log, c);
    FileId(lib, CutLog(lib, log, c), n);
    RepairedShape(files, disk, |FileOf(lib, CutLog(lib, log, c)[n]).bytes|, durable);
  }

  lemma SealedLengths(files: seq<Segment>, durable: seq<nat>)
    requires SealedDurable(files, durable)
    ensures |durable| == |files|
  {
  }

  lemma RepairedShape(files: seq<Segment>, disk: seq<Segment>, end: nat, durable: seq<nat>)
    requires |disk| == |files| > 0 && disk[..|files| - 1] == files[..|files| - 1] && end <= |disk[|disk| - 1].bytes|
    requires Ascending(disk) && SealedDurable(files, durable)
    ensures Ascending(Repaired(disk, end)) && |Repaired(disk, end)| == |files|
    ensures SealedDurable(Repaired(disk, end), durable) &&
            SealedDurable(Repaired(disk, end), durable[|durable| - 1 := end])
  {
    var n := |files| - 1;
    forall i | 0 <= i < n ensures Repaired(disk, end)[i] == files[i] {
      assert disk[..n][i] == files[..n][i];
    }
  }

  lemma CutLast(lib: Codecs, log: seq<Written>, c: nat)
    requires AllProper(lib, log) && log != [] && c >= 32
    ensures var w := CutLog(lib, log, c)[|log| - 1];
            w.id == log[|log| - 1].id && |FileOf(lib, w).bytes| >= 32
  {
  }

  function Lengths(files: seq<Segment>): (lengths: seq<nat>)
    ensures |lengths| == |files| && forall i :: 0 <= i < |files| ==> lengths[i] == |files[i].bytes|
  {
    seq(|files|, i requires 0 <= i < |files| => |files[i].bytes|)
  }

  /** The first segment of a new directory. */
  lemma FreshLog(lib: Codecs, now: nat) returns (log: seq<Written>)
    ensures |log| == 1 && AllProper(lib, log) && Injective(lib, DataOf(log))
    ensures Disk(lib, log) == [Segment(1, SegmentHeader(1, now))] && Ascending(Disk(lib, log))
    ensures IndexAll(lib, log) == map[] && ChunksAll(lib, log) == ChunksAll(lib, []) == map[]
    ensures FileOf(lib, log[0]) == Segment(1, SegmentHeader(1, now))
  {
    WrittenHeader(1, now);
    log := SegmentAdded(lib, [], 1, SegmentHeader(1, now));
  }

  /** What a scan of whole segments leaves, all of it durable. */
  lemma OpenedConsistent(lib: Codecs, log: seq<Written>, files: seq<Segment>, r: Outcome)
    requires Sane(lib) && log != [] && AllProper(lib, log) && Injective(lib, DataOf(log))
    requires Ascending(Disk(lib, log))
    requires r == Scanned(IndexAll(lib, log), |FileOf(lib, log[|log| - 1]).bytes|)
    requires files == Disk(lib, log) || (r.end <= |Disk(lib, log)[|log| - 1].bytes| &&
             files == Repaired(Disk(lib, log), r.end))
    ensures files == Disk(lib, log)
    ensures Consistent(lib, log, files, r.index, files[|files| - 1].id, r.end, Lengths(files))
    ensures CutLog(lib, log, r.end) == log && Lengths(files)[|files| - 1] == r.end
  {
    hide Sane, Injective, DataOf, IndexAll, Disk, CutLog, RecordsBytes, HeaderAccepted;
    DiskAt(lib, log, |log| - 1);
    CutAtEnd(lib, log);
    var last := Disk(lib, log)[|log| - 1];
    assert last.bytes[..r.end] == last.bytes;
  }

  class Store {
    const lib: Codecs
    const maxSize: nat
    var files: seq<Segment>      // the directory, by ascending number
    var index: Index
    var current: nat             // the writer's segment and offset
    var offset: nat
    ghost var log: seq<Written>
    ghost var durable: seq<nat>  // how much of each file is on stable storage

    ghost predicate Valid()
      reads this
    {
      Consistent(lib, log, files, index, current, offset, durable)
    }

    /** The chunks stored, as the bytes put under each id. */
    ghost function Contents(): Chunks
      reads this
    {
      ChunksAll(lib, log)
    }

    /** The chunks that survive losing every byte not yet on stable storage. */
    ghost function Durable(): Chunks
      requires Valid()
      reads this
    {
      ChunksAll(lib, CutLog(lib, log, durable[|durable| - 1]))
    }

    /** Opening an empty directory. */
    constructor (lib: Codecs, maxSize: nat, now: nat)
      requires Sane(lib)
      ensures Valid() && Contents() == map[] && this.lib == lib && this.maxSize == maxSize
    {
      hide SegmentHeader;
      ghost var all := FreshLog(lib, now);
      this.lib, this.maxSize := lib, maxSize;
      files, index, current, offset := [Segment(1, SegmentHeader(1, now))], map[], 1, 32;
      log, durable := all, [32];
    }

    /** Opening a directory of whole segments, in which a chunk may be stored several times. */
    constructor Open(lib: Codecs, maxSize: nat, disk: seq<Segment>, now: nat, ghost written: seq<Written>)
      requires Sane(lib) && AllProper(lib, written) && Injective(lib, DataOf(written))
      requires disk == Disk(lib, written) && Ascending(disk)
      ensures Valid() && Contents() == ChunksAll(lib, written) && Durable() == Contents()
      ensures this.lib == lib && this.maxSize == maxSize
    {
      hide Sane, AllProper, Injective, DataOf, Disk, IndexAll, ChunksAll, CutLog, Consistent, ScanDir, SegmentHeader,
           Ascending;
      ghost var all := written;
      var r, left;
      if disk == [] {
        all := FreshLog(lib, now);
        assert written == [];
        left, r := [Segment(1, SegmentHeader(1, now))], Scanned(map[], 32);
      } else {
        ScanOfLog(lib, written);
        r, left := RecoverAndIndex(lib, disk);
      }
      OpenedConsistent(lib, all, left, r);
      this.lib, this.maxSize := lib, maxSize;
      files, index, current, offset := left, r.index, left[|left| - 1].id, r.end;
      log, durable := all, Lengths(left);
    }

    method Sync()
      requires Valid()
      modifies this`durable
      ensures Valid() && Durable() == Contents() && durable == old(durable)[|old(durable)| - 1 := offset]
    {
      hide Consistent;
      SyncedConsistent(lib, log, files, index, current, offset, durable);
      SizesAgree();
      durable := durable[|durable| - 1 := offset];
    }

    lemma SizesAgree()
      requires Valid()
      ensures |files| == |durable| > 0
    {
    }

    /** Sync the full segment, then start the next one. */
    method Rotate(now: nat)
      requires Valid()
      modifies this
      ensures Valid() && Contents() == old(Contents()) && index == old(index) && Durable() == Contents()
      ensures current == old(current) + 1 && offset == 32 &&
              files == old(files) + [Segment(current, SegmentHeader(current, now))]
    {
      hide Consistent, HeaderAccepted, SegmentHeader, ChunksAll, CutLog;
      SizesAgree();
      Sync();
      var head := SegmentHeader(current + 1, now);
      WrittenHeader(current + 1, now);
      log := RotatedConsistent(lib, log, files, index, current, offset, durable, head);
      files := files + [Segment(current + 1, head)];
      current, offset := current + 1, 32;
      durable := durable + [32];
    }

    /** `append_chunk`. A full segment is synced and sealed first, which makes everything stored so
        far durable; otherwise an append makes nothing durable. */
    method AppendChunk(data: Bytes, nonce: Bytes, now: nat)
      requires Valid() && Storable(lib, Stored(data, nonce)) && lib.hash(data) !in index
      modifies this
      ensures Valid() && Contents() == old(Contents())[lib.hash(data) := data]
      ensures lib.hash(data) in index && index.Keys == old(index.Keys) + {lib.hash(data)}
      ensures var size := 80 + PayloadLength(lib, data);
              if old(offset) + size > maxSize then |files| == |old(files)| + 1 && Durable() == old(Contents())
              else |files| == |old(files)| && Durable() == old(Durable())
    {
      hide Consistent, ChunksAll, CutLog, RecordBytes, Storable, Sane, PayloadLength, PayloadOf, HeaderOf,
           EncodeHeader, SegmentHeader;
      var s := Stored(data, nonce);
      LawsHold();
      SizesAgree();
      RecordSlices(lib, s, [], []);
      PayloadHasItsLength(lib, s);
      var payload := PayloadOf(lib, s);
      if offset + 80 + |payload| > maxSize { Rotate(now); }
      SizesAgree();
      ghost var grown := AppendedConsistent(lib, log, files, index, current, offset, durable, s);
      var last := files[|files| - 1];
      var location := Location(current, offset, offset + 80, |payload|, |data|);
      files := files[|files| - 1 := Segment(current, last.bytes + RecordBytes(lib, s))];
      offset := offset + 80 + |payload|;
      index := index[lib.hash(data) := location];
      log := grown;
    }

    lemma LawsHold()
      requires Valid()
      ensures Sane(lib)
    {
    }

    /** A chunk already indexed is not written again. */
    method PutChunk(data: Bytes, nonce: Bytes, now: nat) returns (id: Bytes, isNew: bool)
      requires Valid() && Storable(lib, Stored(data, nonce))
      modifies this
      ensures Valid() && id == lib.hash(data) && id in index
      ensures isNew <==> id !in old(index)
      ensures Contents() == if isNew then old(Contents())[id := data] else old(Contents())
      ensures !isNew ==> files == old(files) && index == old(index) && durable == old(durable)
      ensures Submap(old(Durable()), Durable())
    {
      hide Consistent, ChunksAll, CutLog, RecordBytes, Storable, Sane, PayloadLength;
      id := lib.hash(data);
      if id in index { return id, false; }
      DurableIsStored();
      AppendChunk(data, nonce, now);
      return id, true;
    }

    lemma DurableIsStored()
      requires Valid()
      ensures Submap(Durable(), Contents())
    {
      hide Sane, Injective, DataOf, IndexAll, HeaderAccepted, RecordsBytes, Disk, CutLog, ChunksAll, Submap;
      CutIsSubmap(lib, log, durable[|durable| - 1], offset);
      CutAtEnd(lib, log);
    }

    /** Every stored chunk reads back as the bytes put, unless its payload exceeds the reader's limit. */
    method GetChunk(id: Bytes) returns (r: Option<Bytes>)
      requires Valid()
      ensures r == if id in Contents() &&
              PayloadLength(lib, Contents()[id]) <= MAX_SEGMENT then Some(Contents()[id]) else None
      ensures r.Some? ==> lib.hash(r.value) == id
      ensures id in Contents() <==> id in index
      ensures id in Contents() ==> lib.hash(Contents()[id]) == id
      ensures id in Contents() ==>
                |Contents()[id]| < 0x1_0000_0000 && PayloadLength(lib, Contents()[id]) < 0x1_0000_0000
    {
      hide Sane, Injective, DataOf, IndexAll, ChunksAll, HeaderAccepted, RecordsBytes, Disk, ReadChunk, PayloadLength;
      AllKeysAgree(lib, log);
      if id !in index { return None; }
      ghost var i := IndexedReadsBack(lib, log, id);
      DiskAt(lib, log, i);
      LookupFinds(files, i);
      var location := index[id];
      var file := Lookup(files, location.segment);
      match file
      case None => return None;
      case Some(bytes) => return ReadChunk(lib, bytes, id, location);
    }

    /** `get_location`: where a chunk is and how long its data are. */
    method GetLocation(id: Bytes) returns (r: Option<Location>)
      requires Valid()
      ensures r.Some? <==> id in Contents()
      ensures r.Some? ==> r.value.rawLen == |Contents()[id]| && r.value.payloadLen == PayloadLength(lib, Contents()[id])
    {
      hide Sane, Injective, DataOf, IndexAll, ChunksAll, HeaderAccepted, RecordsBytes, Disk, ReadChunk, PayloadLength;
      AllKeysAgree(lib, log);
      if id !in index { return None; }
      ghost var _ := IndexedReadsBack(lib, log, id);
      return Some(index[id]);
    }

    /** Power is lost, each file losing any of its bytes not on stable storage, perhaps in the middle
        of a record; then the store is opened again. Opening succeeds; everything durable is there
        and stays durable, and nothing is there that was not. */
    method Reopen(cuts: seq<nat>)
      requires Valid()
      requires |cuts| == |files| == |durable| && forall i :: 0 <= i < |files| ==>
               durable[i] <= cuts[i] <= |files[i].bytes|
      modifies this
      ensures Valid()
      ensures Submap(old(Durable()), Contents()) && Submap(Contents(), old(Contents()))
      ensures Submap(old(Durable()), Durable())
      ensures index.Keys <= old(index).Keys
    {
      hide Consistent, ChunksAll, CutLog, IndexAll, ScanDir, FileOf, AllProper, Ascending;
      CutsOrdered(cuts);
      ReopenedConsistent(lib, log, files, index, current, offset, durable, cuts);
      ghost var shorter := CutLog(lib, log, cuts[|cuts| - 1]);
      var disk := CutFiles(files, cuts);
      var r, left := RecoverAndIndex(lib, disk);
      ghost var torn := r.end < cuts[|cuts| - 1];
      files, index, current, offset := left, r.index, left[|left| - 1].id, r.end;
      log := shorter;
      if torn {
        durable := durable[|durable| - 1 := r.end];
        SyncedConsistent(lib, log, files, index, current, offset, durable);
      }
    }

    lemma CutsOrdered(cuts: seq<nat>)
      requires Valid()
      requires |cuts| == |files| == |durable| && forall i :: 0 <= i < |files| ==>
               durable[i] <= cuts[i] <= |files[i].bytes|
      ensures log != [] && AllProper(lib, log)
      ensures |durable| > 0 && 32 <= durable[|durable| - 1] <= cuts[|cuts| - 1] <= offset
      ensures var c, d := cuts[|cuts| - 1], durable[|durable| - 1];
              var left := CutLog(lib, log, c);
              && Submap(Durable(), ChunksAll(lib, left)) && Submap(ChunksAll(lib, left), Contents())
              && IndexAll(lib, left).Keys <= index.Keys && CutLog(lib, left, d) == CutLog(lib, log, d)
    {
      hide Sane, Injective, DataOf, IndexAll, HeaderAccepted, RecordsBytes, Disk, CutLog, ChunksAll, Submap;
      var c, d := cuts[|cuts| - 1], durable[|durable| - 1];
      DiskAt(lib, log, |log| - 1);
      CutIsSubmap(lib, log, d, c);
      CutIsSubmap(lib, log, c, offset);
      CutAtEnd(lib, log);
      CutOfCut(lib, log, c, d);
    }

    lemma KeysMatch()
      requires Valid()
      ensures index.Keys == Contents().Keys && |index| == |Contents()|
    {
      hide Sane, Injective, DataOf, IndexAll, ChunksAll, HeaderAccepted, RecordsBytes, Disk;
      AllKeysAgree(lib, log);
      assert |index| == |index.Keys| && |Contents()| == |Contents().Keys|;
    }

    /** Copy one chunk, if it can be read back. */
    method CopyOne(next: Store, id: Bytes, ghost copied: set<Bytes>, nonce: Bytes, now: nat) returns (ok: bool)
      requires Valid() && next.Valid() && next != this && next.lib == lib && |nonce| == 24
      requires id in Contents() && id !in copied && next.Contents() == Restrict(Contents(), copied)
      modifies next
      ensures next.Valid() && ok == (PayloadLength(lib, Contents()[id]) <= MAX_SEGMENT)
      ensures ok ==> next.Contents() == Restrict(Contents(), copied + {id})
    {
      hide Consistent, ChunksAll, CutLog, Sane, PayloadLength, Storable, Restrict, Durable;
      var data := GetChunk(id);
      RestrictMore(Contents(), copied, id);
      if data.None? { return false; }
      next.KeysMatch();
      FitsAgain(lib, data.value, nonce);
      next.AppendChunk(data.value, nonce, now);
      return true;
    }

    /** Stream the chunks `todo` into another store, one by one and in any order, until one of them
        cannot be read back. */
    method CopyTo(next: Store, todo: set<Bytes>, nonces: Bytes -> Bytes, now: nat) returns (ok: bool)
      requires Valid() && next.Valid() && next != this && next.lib == lib && next.Contents() == map[]
      requires todo <= Contents().Keys && forall id :: |nonces(id)| == 24
      modifies next
      ensures next.Valid() && ok == Readable(lib, Contents(), todo)
      ensures ok ==> next.Contents() == Restrict(Contents(), todo)
    {
      hide Consistent, ChunksAll, Readable, Restrict, PayloadLength;
      var left := todo;
      ghost var copied := {};
      NoneCopied(lib, Contents());
      while left != {}
        invariant next.Valid() && left !! copied && left + copied == todo
        invariant next.Contents() == Restrict(Contents(), copied)
        invariant Readable(lib, Contents(), copied)
        decreases left
      {
        var id :| id in left;
        OneMore(lib, Contents(), todo, copied, id);
        ok := CopyOne(next, id, copied, nonces(id), now);
        if !ok { return; }
        left, copied := left - {id}, copied + {id};
      }
      assert copied == todo;
      return true;
    }

    /** Sync the new segments and put them in the place of the old ones. */
    method Adopt(next: Store)
      requires next.Valid() && next != this && next.lib == lib
      modifies this, next
      ensures Valid() && Durable() == Contents() == old(next.Contents())
    {
      hide Consistent, ChunksAll, CutLog;
      next.Sync();
      files, index, current, offset := next.files, next.index, next.current, next.offset;
      log, durable := next.log, next.durable;
    }

    /** `compact_and_reclaim` without crashes: the retained chunks replace the segments. It fails,
        changing no chunk, exactly when some chunk is dead and a live one cannot be read back. */
    method Compact(live: set<Bytes>, nonces: Bytes -> Bytes, now: nat) returns (r: Option<nat>)
      requires Valid() && forall id :: |nonces(id)| == 24
      modifies this
      ensures Valid() && Durable() == Contents()
      ensures r.None? <==>
                !(old(Contents()).Keys <= live) && !Readable(lib, old(Contents()), old(Contents()).Keys * live)
      ensures Contents() == if r.Some? then Restrict(old(Contents()), live) else old(Contents())
      ensures r.Some? ==> r.value == |old(Contents())| - |Contents()|
    {
      hide Consistent, ChunksAll, CutLog, Sane, Readable, Restrict, AllProper;
      LawsHold();
      KeysMatch();
      RestrictedTo(Contents(), live);
      Sync();
      var before := |index|;
      if index.Keys <= live { return Some(0); }
      var next := new Store(lib, maxSize, now);
      var ok := CopyTo(next, index.Keys * live, nonces, now);
      if !ok { return None; }
      Adopt(next);
      KeysMatch();
      return Some(before - |index|);
    }
  }

  function Restrict(chunks: Chunks, ids: set<Bytes>): Chunks {
    map id | id in chunks && id in ids :: chunks[id]
  }

  /** None of these chunks exceeds the reader's limit. */
  ghost predicate Readable(lib: Codecs, chunks: Chunks, ids: set<Bytes>) {
    forall id :: id in ids && id in chunks ==> PayloadLength(lib, chunks[id]) <= MAX_SEGMENT
  }

  lemma RestrictedTo(chunks: Chunks, live: set<Bytes>)
    ensures chunks.Keys <= live ==> Restrict(chunks, live) == chunks
    ensures Restrict(chunks, chunks.Keys * live) == Restrict(chunks, live)
    ensures |Restrict(chunks, live)| <= |chunks|
  {
    SubsetIsSmaller(Restrict(chunks, live).Keys, chunks.Keys);
    assert |Restrict(chunks, live)| == |Restrict(chunks, live).Keys|;
  }

  lemma SubsetIsSmaller(a: set<Bytes>, b: set<Bytes>)
    requires a <= b
    ensures |a| <= |b|
  {
    assert b == a + (b - a);
  }

  lemma NoneCopied(lib: Codecs, chunks: Chunks)
    ensures Restrict(chunks, {}) == map[] && Readable(lib, chunks, {})
  {
  }

  lemma RestrictMore(chunks: Chunks, ids: set<Bytes>, id: Bytes)
    requires id in chunks
    ensures id !in ids ==> id !in Restrict(chunks, ids)
    ensures Restrict(chunks, ids + {id}) == Restrict(chunks, ids)[id := chunks[id]]
  {
  }

  lemma OneMore(lib: Codecs, chunks: Chunks, all: set<Bytes>, ids: set<Bytes>, id: Bytes)
    requires id in chunks && id in all && Readable(lib, chunks, ids)
    ensures if PayloadLength(lib, chunks[id]) <= MAX_SEGMENT then Readable(lib, chunks, ids + {id})
            else !Readable(lib, chunks, all)
  {
  }

  lemma FitsAgain(lib: Codecs, data: Bytes, nonce: Bytes)
    requires |data| < 0x1_0000_0000 && PayloadLength(lib, data) < 0x1_0000_0000 && |nonce| == 24
    ensures Storable(lib, Stored(data, nonce))
  {
  }
}
