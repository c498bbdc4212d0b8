/** The write-ahead log file: scanning and truncating it on open, appending, reading back what is
    above the checkpoint, and checkpointing. */
module Wal {
  import opened Basics
  import opened WalFormat

  // ---------------------------------------------------------------- what a log file holds

  /** A record together with the bytes that were appended for it. */
  datatype Entry = Entry(record: Record, bytes: Bytes)

  ghost predicate Written(lib: Lib, e: Entry) {
    Typed(lib, e.record) && exists nonce: Bytes :: |nonce| == 24 && Encode(lib, e.record, nonce) == Some(e.bytes)
  }

  ghost predicate AllWritten(lib: Lib, es: seq<Entry>) {
    forall i :: 0 <= i < |es| ==> Written(lib, es[i])
  }

  function LogBytes(es: seq<Entry>): Bytes {
    if es == [] then [] else es[0].bytes + LogBytes(es[1..])
  }

  function Records(es: seq<Entry>): seq<Record> {
    if es == [] then [] else [es[0].record] + Records(es[1..])
  }

  /** How many entries lie wholly inside the first `cut` bytes. */
  function Whole(es: seq<Entry>, cut: nat): (k: nat)
    ensures k <= |es|
  {
    if es == [] || cut < |es[0].bytes| then 0 else 1 + Whole(es[1..], cut - |es[0].bytes|)
  }

  // ---------------------------------------------------------------- the scan

  datatype Scanned = Scanned(records: seq<Record>, used: nat) | Broken(error: Error)

  /** Decode records until the bytes end, the magic is missing or a record is incomplete or
      corrupt; any other decoding error fails the scan. */
  function Scan(lib: Lib, b: Bytes): (s: Scanned)
    ensures s.Scanned? ==> s.used <= |b|
    decreases |b|
  {
    if |b| < 21 || b[..4] != WAL_MAGIC then Scanned([], 0)
    else
      match Decode(lib, b)
      case Ok((r, n)) => Prepend(r, n, Scan(lib, b[n..]))
      case Err(e) => if e.WalRecovery? || e.ChecksumMismatch? then Scanned([], 0) else Broken(e)
  }

  function Prepend(r: Record, n: nat, s: Scanned): Scanned {
    if s.Broken? then s else Scanned([r] + s.records, n + s.used)
  }

  lemma WholeTaken(es: seq<Entry>, cut: nat)
    requires es != [] && cut >= |es[0].bytes|
    ensures es[..Whole(es, cut)] == [es[0]] + es[1..][..Whole(es[1..], cut - |es[0].bytes|)]
  {
  }

  lemma EntryDecodes(lib: Lib, e: Entry, rest: Bytes)
    requires Lawful(lib) && Written(lib, e)
    ensures |e.bytes| >= 21 && Decode(lib, e.bytes + rest) == Ok((e.record, |e.bytes|))
    ensures e.bytes[..4] == WAL_MAGIC
  {
    var nonce: Bytes :| |nonce| == 24 && Encode(lib, e.record, nonce) == Some(e.bytes);
    hide Decode;
    RecordRoundTrip(lib, e.record, nonce, rest);
    StartsWithMagic(lib, e.record, nonce);
  }

  lemma StartsWithMagic(lib: Lib, r: Record, nonce: Bytes)
    requires Encode(lib, r, nonce).Some?
    ensures |Encode(lib, r, nonce).value| >= 4 && Encode(lib, r, nonce).value[..4] == WAL_MAGIC
  {
    hide Payload, Le, Fits;
  }

  lemma EntryCut(lib: Lib, e: Entry, cut: nat)
    requires Lawful(lib) && Written(lib, e) && cut < |e.bytes|
    ensures Decode(lib, e.bytes[..cut]) == Err(WalRecovery)
  {
    var nonce: Bytes :| |nonce| == 24 && Encode(lib, e.record, nonce) == Some(e.bytes);
    hide Decode;
    CutRecordIsIncomplete(lib, e.record, nonce, cut);
  }

  /** Scanning any byte prefix of a written log finds exactly the records wholly inside it and ends
      at the boundary behind the last of them. */
  lemma {:induction false} ScanOfPrefix(lib: Lib, es: seq<Entry>, cut: nat)
    requires Lawful(lib) && AllWritten(lib, es) && cut <= |LogBytes(es)|
    ensures var k := Whole(es, cut);
            Scan(lib, LogBytes(es)[..cut]) == Scanned(Records(es[..k]), |LogBytes(es[..k])|)
  {
    hide Lawful, Written, Decode;
    if es == [] {
      assert es[..0] == [];
    } else {
      var e, rest := es[0], LogBytes(es[1..]);
      assert Written(lib, e);
      if cut < |e.bytes| {
        assert LogBytes(es)[..cut] == e.bytes[..cut];
        EntryCut(lib, e, cut);
      } else {
        var tail := rest[..cut - |e.bytes|];
        assert LogBytes(es)[..cut] == e.bytes + tail;
        EntryDecodes(lib, e, tail);
        Split(e.bytes, tail);
        assert (e.bytes + tail)[..4] == e.bytes[..4];
        assert AllWritten(lib, es[1..]);
        ScanOfPrefix(lib, es[1..], cut - |e.bytes|);
        WholeTaken(es, cut);
        var k := Whole(es, cut);
        assert es[..k][1..] == es[1..][..k - 1];
      }
    }
  }

  /** Whatever stands behind whole records, short, foreign or damaged, ends the log at their boundary. */
  lemma {:induction false} ScanOfTail(lib: Lib, es: seq<Entry>, tail: Bytes)
    requires Lawful(lib) && AllWritten(lib, es)
    requires |tail| < 21 || tail[..4] != WAL_MAGIC ||
             Decode(lib, tail) == Err(WalRecovery) || Decode(lib, tail) == Err(ChecksumMismatch)
    ensures Scan(lib, LogBytes(es) + tail) == Scanned(Records(es), |LogBytes(es)|)
  {
    hide Lawful, Written, Decode;
    if es == [] {
      assert LogBytes(es) + tail == tail;
    } else {
      var e, more := es[0], LogBytes(es[1..]) + tail;
      assert Written(lib, e);
      assert LogBytes(es) + tail == e.bytes + more;
      EntryDecodes(lib, e, more);
      Split(e.bytes, more);
      assert (e.bytes + more)[..4] == e.bytes[..4];
      assert AllWritten(lib, es[1..]);
      ScanOfTail(lib, es[1..], tail);
    }
  }

  /** The boundary is the last one inside the prefix. */
  lemma {:induction false} WholeIsMaximal(es: seq<Entry>, cut: nat)
    ensures var k := Whole(es, cut);
            && |LogBytes(es[..k])| <= cut
            && (k < |es| ==> cut < |LogBytes(es[..k + 1])|)
  {
    if es == [] || cut < |es[0].bytes| {
      assert es[..0] == [];
      if es != [] { assert es[..1][0] == es[0]; }
    } else {
      var k := Whole(es, cut);
      WholeIsMaximal(es[1..], cut - |es[0].bytes|);
      assert es[..k][1..] == es[1..][..k - 1] && es[..k][0] == es[0];
      if k < |es| { assert es[..k + 1][1..] == es[1..][..k] && es[..k + 1][0] == es[0]; }
    }
  }

  lemma ScanOfWhole(lib: Lib, es: seq<Entry>)
    requires Lawful(lib) && AllWritten(lib, es)
    ensures Scan(lib, LogBytes(es)) == Scanned(Records(es), |LogBytes(es)|)
  {
    hide Scan, AllWritten;
    var n := |LogBytes(es)|;
    ScanOfPrefix(lib, es, n);
    AllWhole(es);
    assert LogBytes(es)[..n] == LogBytes(es) && es[..|es|] == es;
  }

  lemma {:induction false} AllWhole(es: seq<Entry>)
    ensures Whole(es, |LogBytes(es)|) == |es|
  {
    if es != [] { AllWhole(es[1..]); }
  }

  lemma {:induction false} LogBytesPrefix(es: seq<Entry>, k: nat)
    requires k <= |es|
    ensures LogBytes(es[..k]) <= LogBytes(es)
  {
    if k > 0 {
      LogBytesPrefix(es[1..], k - 1);
      assert es[..k][1..] == es[1..][..k - 1];
    }
  }

  // ---------------------------------------------------------------- records above the checkpoint

  function Above(rs: seq<Record>, ckpt: nat): seq<Record> {
    if rs == [] then [] else (if rs[0].lsn > ckpt then [rs[0]] else []) + Above(rs[1..], ckpt)
  }

  function MaxLsn(rs: seq<Record>, floor: U64): U64 {
    if rs == [] then floor else MaxLsn(rs[1..], if rs[0].lsn > floor then rs[0].lsn else floor)
  }

  /** `checkpoint.meta`: eight bytes, or anything shorter, which reads as zero. */
  function ReadMeta(meta: Option<Bytes>): U64 {
    if meta.Some? && |meta.value| >= 8 then
      Le64InRange(meta.value[..8]); FromLe(meta.value[..8])
    else 0
  }

  // ---------------------------------------------------------------- the log object

  class Log {
    const lib: Lib
    var file: Bytes              // wal.log
    var meta: Option<Bytes>      // checkpoint.meta
    var currentLsn: U64
    var checkpointLsn: U64

    constructor (lib: Lib, file: Bytes, meta: Option<Bytes>)
      ensures this.lib == lib && this.file == file && this.meta == meta
    {
      this.lib, this.file, this.meta := lib, file, meta;
      currentLsn, checkpointLsn := 0, 0;
    }

    /** `open_with_vault`: read the checkpoint, scan, and cut off what is not a whole record. */
    method Open() returns (failed: Option<Error>)
      modifies this
      ensures meta == old(meta) && checkpointLsn == ReadMeta(meta)
      ensures Scan(lib, old(file)).Broken? ==> failed == Some(Scan(lib, old(file)).error) && file == old(file)
      ensures Scan(lib, old(file)).Scanned? ==>
                var s := Scan(lib, old(file));
                failed == None && file == old(file)[..s.used] && currentLsn == MaxLsn(s.records, checkpointLsn)
    {
      hide Decode, Scan, ReadMeta;
      checkpointLsn := ReadMeta(meta);
      currentLsn := checkpointLsn;
      var content := file;
      var offset := 0;
      ghost var found: seq<Record> := [];
      assert content[0..] == content;
      PrependNone(Scan(lib, content));
      while offset < |content|
        invariant 0 <= offset <= |content| && file == content && meta == old(meta) && checkpointLsn == ReadMeta(meta)
        invariant Scan(lib, content) == PrependAll(found, offset, Scan(lib, content[offset..]))
        invariant currentLsn == MaxLsn(found, checkpointLsn)
      {
        var remaining := content[offset..];
        ScanStep(lib, remaining);
        if |remaining| < 21 { break; }
        if remaining[..4] != WAL_MAGIC { break; }
        var decoded := Decode(lib, remaining);
        if decoded.Err? {
          if decoded.error.WalRecovery? || decoded.error.ChecksumMismatch? { break; }
          return Some(decoded.error);
        }
        var (record, consumed) := decoded.value;
        MaxLsnAppend(found, record, checkpointLsn);
        if record.lsn > currentLsn { currentLsn := record.lsn; }
        assert remaining[consumed..] == content[offset + consumed..];
        PrependMore(found, offset, record, consumed, Scan(lib, content[offset + consumed..]));
        found := found + [record];
        offset := offset + consumed;
      }
      ScanStep(lib, content[offset..]);
      if offset < |content| { file := content[..offset]; }
      assert content[..|content|] == content;
      assert found + [] == found;
      return None;
    }

    /** `read_uncheckpointed_records`: on a log `Open` left behind it never fails. */
    method ReadUncheckpointed() returns (r: Result<seq<Record>>)
      ensures var s := Scan(lib, file);
              s.Scanned? && s.used == |file| ==> r == Ok(Above(s.records, checkpointLsn))
    {
      var found: seq<Record> := [];
      ghost var all: seq<Record> := [];
      var offset := 0;
      hide Decode, Scan;
      assert file[0..] == file;
      PrependNone(Scan(lib, file));
      while offset < |file|
        invariant 0 <= offset <= |file|
        invariant Scan(lib, file) == PrependAll(all, offset, Scan(lib, file[offset..]))
        invariant found == Above(all, checkpointLsn)
      {
        var remaining := file[offset..];
        ScanStep(lib, remaining);
        if |remaining| < 21 { break; }
        if remaining[..4] != WAL_MAGIC { break; }
        var decoded := Decode(lib, remaining);
        if decoded.Err? { return Err(decoded.error); }
        var (record, consumed) := decoded.value;
        assert remaining[consumed..] == file[offset + consumed..];
        PrependMore(all, offset, record, consumed, Scan(lib, file[offset + consumed..]));
        AboveAppend(all, record, checkpointLsn);
        all := all + [record];
        if record.lsn > checkpointLsn { found := found + [record]; }
        offset := offset + consumed;
      }
      ScanStep(lib, file[offset..]);
      assert all + [] == all;
      return Ok(found);
    }

    /** `append_put_and_sync`: the sequence number is taken even when encoding is refused. */
    method Append(put: Put, nonce: Bytes) returns (lsn: Option<U64>, ghost entry: Entry)
      requires |nonce| == 24 && currentLsn + 1 < 0x1_0000_0000_0000_0000
      modifies this`file, this`currentLsn
      ensures currentLsn == old(currentLsn) + 1
      ensures lsn.Some? <==> Fits(lib, put)
      ensures lsn.None? ==> file == old(file)
      ensures lsn.Some? ==> lsn.value == currentLsn && entry.record == WalFormat.Record(currentLsn, PutObject(put))
      ensures lsn.Some? ==> file == old(file) + entry.bytes && (PutTyped(lib, put) ==> Written(lib, entry))
    {
      currentLsn := currentLsn + 1;
      var encoded := Encode(lib, WalFormat.Record(currentLsn, PutObject(put)), nonce);
      entry := Entry(WalFormat.Record(currentLsn, PutObject(put)), []);
      if encoded.None? { return None, entry; }
      file := file + encoded.value;
      entry := Entry(WalFormat.Record(currentLsn, PutObject(put)), encoded.value);
      return Some(currentLsn), entry;
    }

    /** `checkpoint`: rewrite the checkpoint file, and drop the log once all of it is covered. `if *` is a
        crash point; one inside the rewriting leaves a file that reads as zero. */
    method Checkpoint(lsn: U64) returns (done: bool, ghost phase: nat)
      modifies this`meta, this`checkpointLsn, this`file
      ensures checkpointLsn == lsn && phase <= 3 && (done <==> phase == 3)
      ensures phase == 0 ==> meta == old(meta) && file == old(file)
      ensures phase == 1 ==> ReadMeta(meta) == 0 && file == old(file)
      ensures phase == 2 ==> ReadMeta(meta) == lsn && file == old(file)
      ensures phase == 3 ==> ReadMeta(meta) == lsn && file == if lsn >= currentLsn then [] else old(file)
    {
      checkpointLsn := lsn;
      if * { return false, 0; }
      meta := Some([]);
      if * {
        var torn: nat :| torn < 8;
        meta := Some(Le(lsn, 8)[..torn]);
        return false, 1;
      }
      meta := Some(Le(lsn, 8));
      Le8(lsn);
      assert Le(lsn, 8)[..8] == Le(lsn, 8);
      if * { return false, 2; }
      if checkpointLsn >= currentLsn { file := []; }
      return true, 3;
    }
  }

  /** A cut log, opened: exactly the whole records remain, a second opening changes nothing, and
      what is above the checkpoint reads back. */
  method OpenCutLog(lib: Lib, es: seq<Entry>, cut: nat, meta: Option<Bytes>) returns (records: seq<Record>)
    requires Lawful(lib) && AllWritten(lib, es) && cut <= |LogBytes(es)|
    ensures records == Above(Records(es[..Whole(es, cut)]), ReadMeta(meta))
  {
    hide Scan, AllWritten, Decode, Lawful, LogBytes, Records, Whole, Above, MaxLsn, ReadMeta;
    ghost var kept := LogBytes(es[..Whole(es, cut)]);
    CutLogScans(lib, es, cut);
    var log := new Log(lib, LogBytes(es)[..cut], meta);
    var failed := log.Open();
    assert log.file == kept;
    failed := log.Open();
    assert kept[..|kept|] == kept;
    var r := log.ReadUncheckpointed();
    records := r.value;
  }

  lemma CutLogScans(lib: Lib, es: seq<Entry>, cut: nat)
    requires Lawful(lib) && AllWritten(lib, es) && cut <= |LogBytes(es)|
    ensures var k := Whole(es, cut);
            && |LogBytes(es[..k])| <= cut && LogBytes(es)[..cut][..|LogBytes(es[..k])|] == LogBytes(es[..k])
            && Scan(lib, LogBytes(es)[..cut]) == Scanned(Records(es[..k]), |LogBytes(es[..k])|)
            && Scan(lib, LogBytes(es[..k])) == Scanned(Records(es[..k]), |LogBytes(es[..k])|)
  {
    hide Scan, AllWritten, Lawful, Records;
    var k := Whole(es, cut);
    ScanOfPrefix(lib, es, cut);
    LogBytesPrefix(es, k);
    WholeIsMaximal(es, cut);
    PrefixWritten(lib, es, k);
    ScanOfWhole(lib, es[..k]);
  }

  /** Appending a record is all or nothing: whatever part of its bytes a crash leaves, the scan finds the
      log as it was, or, only when all of them are there, with the record. */
  lemma AppendIsAtomic(lib: Lib, es: seq<Entry>, e: Entry, cut: nat)
    requires Lawful(lib) && AllWritten(lib, es + [e]) && |LogBytes(es)| <= cut <= |LogBytes(es + [e])|
    ensures Scan(lib, LogBytes(es + [e])[..cut]) ==
            if cut == |LogBytes(es + [e])| then Scanned(Records(es + [e]), cut)
            else Scanned(Records(es), |LogBytes(es)|)
  {
    var all := es + [e];
    assert Written(lib, all[|es|]);
    EntryDecodes(lib, e, []);
    hide Scan, AllWritten, Lawful;
    ScanOfPrefix(lib, all, cut);
    WholeOfAppended(es, e, cut);
    assert all[..|es|] == es && all[..|all|] == all;
  }

  lemma {:induction false} WholeOfAppended(es: seq<Entry>, e: Entry, cut: nat)
    requires |LogBytes(es)| <= cut <= |LogBytes(es + [e])| && |e.bytes| > 0
    ensures Whole(es + [e], cut) == if cut == |LogBytes(es + [e])| then |es| + 1 else |es|
  {
    var all := es + [e];
    if es == [] {
      assert all[1..] == [];
    } else {
      assert all[1..] == es[1..] + [e];
      WholeOfAppended(es[1..], e, cut - |es[0].bytes|);
    }
  }

  lemma PrefixWritten(lib: Lib, es: seq<Entry>, k: nat)
    requires AllWritten(lib, es) && k <= |es|
    ensures AllWritten(lib, es[..k])
  {
    hide Written;
  }

  // ---------------------------------------------------------------- loop steps

  function PrependAll(rs: seq<Record>, n: nat, s: Scanned): Scanned {
    if s.Broken? then s else Scanned(rs + s.records, n + s.used)
  }

  lemma PrependNone(s: Scanned)
    ensures PrependAll([], 0, s) == s
  {
  }

  lemma PrependMore(rs: seq<Record>, n: nat, r: Record, m: nat, s: Scanned)
    ensures PrependAll(rs, n, Prepend(r, m, s)) == PrependAll(rs + [r], n + m, s)
  {
  }

  lemma ScanStep(lib: Lib, b: Bytes)
    ensures |b| < 21 || b[..4] != WAL_MAGIC ==> Scan(lib, b) == Scanned([], 0)
    ensures |b| >= 21 && b[..4] == WAL_MAGIC && Decode(lib, b).Ok? ==>
              var (r, n) := Decode(lib, b).value;
              Scan(lib, b) == Prepend(r, n, Scan(lib, b[n..]))
    ensures |b| >= 21 && b[..4] == WAL_MAGIC && Decode(lib, b).Err? ==>
              var e := Decode(lib, b).error;
              Scan(lib, b) == if e.WalRecovery? || e.ChecksumMismatch? then Scanned([], 0) else Broken(e)
  {
    hide Decode;
  }

  lemma {:induction false} MaxLsnAppend(rs: seq<Record>, r: Record, floor: U64)
    ensures MaxLsn(rs + [r], floor) == var m := MaxLsn(rs, floor); if r.lsn > m then r.lsn else m
  {
    if rs == [] {
      assert (rs + [r])[1..] == [];
    } else {
      MaxLsnAppend(rs[1..], r, if rs[0].lsn > floor then rs[0].lsn else floor);
      assert (rs + [r])[1..] == rs[1..] + [r];
    }
  }

  lemma {:induction false} AboveAppend(rs: seq<Record>, r: Record, ckpt: nat)
    ensures Above(rs + [r], ckpt) == Above(rs, ckpt) + (if r.lsn > ckpt then [r] else [])
  {
    if rs == [] {
      assert (rs + [r])[1..] == [];
    } else {
      AboveAppend(rs[1..], r, ckpt);
      assert (rs + [r])[1..] == rs[1..] + [r];
    }
  }
}
