/** The engine's steps on its log, realised by the log file: appending with a crash at any byte, the phases
    of a checkpoint, and what opening finds pending. */
module EngineLog {
  import opened Basics
  import Catalog
  import Engine
  import WalFormat
  import opened Wal

  /** A log record as the engine's, for any reading of names, ids and hashes that keeps the number. */
  type View = WalFormat.Record -> Catalog.PutRec

  ghost predicate KeepsNumbers(view: View) {
    forall r :: view(r).lsn == r.lsn
  }

  ghost function Views(view: View, rs: seq<WalFormat.Record>): seq<Catalog.PutRec> {
    if rs == [] then [] else Views(view, rs[..|rs| - 1]) + [view(rs[|rs| - 1])]
  }

  /** The file holds the engine's log, the checkpoint file reads as its checkpoint, and the last number
      given out is the engine's. */
  ghost predicate Realises(view: View, log: Log, es: seq<Entry>, s: Engine.State)
    reads log
  {
    && AllWritten(log.lib, es) && log.file == LogBytes(es)
    && s.log == Views(view, Records(es)) && ReadMeta(log.meta) == s.ckpt
  }

  // ---------------------------------------------------------------- sequences

  lemma {:induction false} RecordsMore(es: seq<Entry>, e: Entry)
    ensures Records(es + [e]) == Records(es) + [e.record]
    ensures LogBytes(es + [e]) == LogBytes(es) + e.bytes
  {
    var all := es + [e];
    if es == [] {
      assert all[1..] == [];
      assert LogBytes([]) + e.bytes == e.bytes + LogBytes([]);
    } else {
      RecordsMore(es[1..], e);
      assert all[0] == es[0] && all[1..] == es[1..] + [e];
      var first, more := es[0].bytes, LogBytes(es[1..]);
      assert LogBytes(all) == first + LogBytes(all[1..]);
      hide LogBytes;
      assert first + (more + e.bytes) == (first + more) + e.bytes;
    }
  }

  lemma ViewsMore(view: View, rs: seq<WalFormat.Record>, r: WalFormat.Record)
    ensures Views(view, rs + [r]) == Views(view, rs) + [view(r)]
  {
    assert (rs + [r])[..|rs|] == rs;
  }

  /** The records above the checkpoint are the engine's pending ones. */
  lemma {:induction false} ViewsAbove(view: View, rs: seq<WalFormat.Record>, ckpt: nat)
    requires KeepsNumbers(view)
    ensures Views(view, Above(rs, ckpt)) == Engine.Pending(Views(view, rs), ckpt)
  {
    if rs != [] {
      var init, last := rs[..|rs| - 1], rs[|rs| - 1];
      assert rs == init + [last];
      ViewsAbove(view, init, ckpt);
      AboveAppend(init, last, ckpt);
      var log := Views(view, init);
      assert (log + [view(last)])[..|log|] == log;
      if last.lsn > ckpt {
        ViewsMore(view, Above(init, ckpt), last);
      } else {
        assert Above(init, ckpt) + [] == Above(init, ckpt);
      }
    }
  }

  lemma {:induction false} ViewsMax(view: View, rs: seq<WalFormat.Record>, floor: WalFormat.U64)
    requires KeepsNumbers(view)
    ensures Engine.MaxLsn(Views(view, rs), floor) == MaxLsn(rs, floor)
  {
    if rs != [] {
      var init, last := rs[..|rs| - 1], rs[|rs| - 1];
      assert rs == init + [last];
      ViewsMax(view, init, floor);
      MaxLsnAppend(init, last, floor);
      var log := Views(view, init);
      assert (log + [view(last)])[..|log|] == log;
    }
  }

  // ---------------------------------------------------------------- committing

  /** An append that completes is the log part of the engine's commit step. */
  method AppendRecord(view: View, log: Log, put: WalFormat.Put, nonce: Bytes, ghost es: seq<Entry>,
                      ghost s: Engine.State)
      returns (done: bool, ghost e: Entry)
    requires Realises(view, log, es, s) && s.pc.Synced? && s.pc.current == log.currentLsn
    requires |nonce| == 24 && log.currentLsn + 1 < 0x1_0000_0000_0000_0000 && WalFormat.PutTyped(log.lib, put)
    requires Engine.CommitStep(s).log == s.log + [view(WalFormat.Record(s.pc.current + 1, WalFormat.PutObject(put)))]
    modifies log
    ensures log.currentLsn == old(log.currentLsn) + 1
    ensures done ==> Realises(view, log, es + [e], Engine.CommitStep(s))
    ensures !done ==> Realises(view, log, es, s)
  {
    hide Engine.CommitStep, Written, AllWritten, LogBytes, Records, Views, ReadMeta, WalFormat.PutTyped, WalFormat.Fits;
    var lsn;
    lsn, e := log.Append(put, nonce);
    RecordsMore(es, e);
    ViewsMore(view, Records(es), e.record);
    CommitKeepsCheckpoint(s);
    if lsn.Some? { MoreWritten(log.lib, es, e); }
    return lsn.Some?, e;
  }

  lemma MoreWritten(lib: WalFormat.Lib, es: seq<Entry>, e: Entry)
    requires AllWritten(lib, es) && Written(lib, e)
    ensures AllWritten(lib, es + [e])
  {
    hide Written;
  }

  lemma CommitKeepsCheckpoint(s: Engine.State)
    requires s.pc.Synced?
    ensures Engine.CommitStep(s).ckpt == s.ckpt
  {
  }

  /** A crash inside the append leaves any part of its bytes: opening finds the engine's log before the
      commit, or, only with all the bytes there, after it, with what is pending above the checkpoint. */
  method OpenAfterAppend(view: View, lib: WalFormat.Lib, es: seq<Entry>, e: Entry, cut: nat, meta: Option<Bytes>)
      returns (pending: seq<WalFormat.Record>, current: nat)
    requires KeepsNumbers(view) && WalFormat.Lawful(lib) && AllWritten(lib, es + [e])
    requires |LogBytes(es)| <= cut <= |LogBytes(es + [e])|
    ensures var log := Views(view, if cut == |LogBytes(es + [e])| then Records(es + [e]) else Records(es));
            && Views(view, pending) == Engine.Pending(log, ReadMeta(meta))
            && current == Engine.MaxLsn(log, ReadMeta(meta))
  {
    hide Scan, AllWritten, WalFormat.Lawful, LogBytes, Records, Above, MaxLsn, ReadMeta, Engine.Pending, Engine.MaxLsn;
    hide Views, KeepsNumbers;
    ghost var whole := cut == |LogBytes(es + [e])|;
    ghost var kept := if whole then es + [e] else es;
    AppendIsAtomic(lib, es, e, cut);
    Reopened(lib, es, e);
    var log := new Log(lib, LogBytes(es + [e])[..cut], meta);
    var failed := log.Open();
    assert log.file == LogBytes(kept) by { CutAt(es, e, cut); }
    var r := log.ReadUncheckpointed();
    ViewsAbove(view, Records(kept), ReadMeta(meta));
    ViewsMax(view, Records(kept), ReadMeta(meta));
    return r.value, log.currentLsn;
  }

  lemma CutAt(es: seq<Entry>, e: Entry, cut: nat)
    requires |LogBytes(es)| <= cut <= |LogBytes(es + [e])|
    ensures LogBytes(es + [e])[..cut][..|LogBytes(es)|] == LogBytes(es)
    ensures cut == |LogBytes(es + [e])| ==> LogBytes(es + [e])[..cut][..cut] == LogBytes(es + [e])
  {
    hide LogBytes;
    RecordsMore(es, e);
  }

  lemma Reopened(lib: WalFormat.Lib, es: seq<Entry>, e: Entry)
    requires WalFormat.Lawful(lib) && AllWritten(lib, es + [e])
    ensures Scan(lib, LogBytes(es)) == Scanned(Records(es), |LogBytes(es)|)
    ensures Scan(lib, LogBytes(es + [e])) == Scanned(Records(es + [e]), |LogBytes(es + [e])|)
  {
    hide Scan, WalFormat.Lawful;
    PrefixWritten(lib, es + [e], |es|);
    assert (es + [e])[..|es|] == es;
    ScanOfWhole(lib, es);
    ScanOfWhole(lib, es + [e]);
  }

  // ---------------------------------------------------------------- checkpoints

  /** A checkpoint, crashing anywhere, takes as many of the engine's checkpoint steps as phases it reached. */
  method TakeCheckpoint(view: View, log: Log, ghost es: seq<Entry>, ghost s: Engine.State, lsn: WalFormat.U64)
      returns (done: bool, ghost phase: nat, ghost left: seq<Entry>)
    requires Realises(view, log, es, s)
    requires s.pc == Engine.Checkpoint(log.currentLsn, lsn, 0)
    modifies log
    ensures phase <= 3 && (done <==> phase == 3)
    ensures Realises(view, log, left, AfterPhases(s, phase))
  {
    hide Written, ReadMeta;
    PhasesOf(s);
    done, phase := log.Checkpoint(lsn);
    left := if done && lsn >= log.currentLsn then [] else es;
  }

  ghost function AfterPhases(s: Engine.State, n: nat): Engine.State {
    if n == 0 then s else Engine.StepOf(AfterPhases(s, n - 1))
  }

  lemma PhasesOf(s: Engine.State)
    requires s.pc.Checkpoint? && s.pc.phase == 0
    ensures AfterPhases(s, 0) == s
    ensures AfterPhases(s, 1).ckpt == 0 && AfterPhases(s, 1).log == s.log
    ensures AfterPhases(s, 2).ckpt == s.pc.lsn && AfterPhases(s, 2).log == s.log
    ensures AfterPhases(s, 3).ckpt == s.pc.lsn
    ensures AfterPhases(s, 3).log == if s.pc.lsn >= s.pc.current then [] else s.log
  {
    assert AfterPhases(s, 1) == Engine.StepOf(AfterPhases(s, 0));
    assert AfterPhases(s, 2) == Engine.StepOf(AfterPhases(s, 1));
    assert AfterPhases(s, 3) == Engine.StepOf(AfterPhases(s, 2));
  }
}
