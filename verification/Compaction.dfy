/** The two-phase segment swap of garbage collection, and the start-up code that undoes or
    finishes it, with a crash possible after every durable action. `if *` is a crash point. */
module Compaction {
  import opened Basics
  import opened SegmentFormat
  import opened SegmentScan
  import SegmentStore

  /** Segment files by number, each as the records it was written with. */
  type Files = map<nat, Written>

  /** The data of all records. */
  function Contents(files: Files): set<Bytes> {
    set n, i | n in files && 0 <= i < |files[n].records| :: files[n].records[i].data
  }

  /** What a collection with this set of reachable chunk ids retains. */
  function Retained(lib: Codecs, data: set<Bytes>, reachable: set<Bytes>): set<Bytes> {
    set d | d in data && lib.hash(d) in reachable
  }

  /** Every file is a whole segment under its own number. */
  ghost predicate WholeFiles(lib: Codecs, files: Files) {
    forall n :: n in files ==> files[n].id == n && SegmentStore.Proper(lib, files[n])
  }

  /** `.compact_done`: absent, created but not fully written, or holding the completion text. */
  datatype Marker = Absent | Partial | Done

  lemma InContents(files: Files, n: nat, i: nat)
    requires n in files && i < |files[n].records|
    ensures files[n].records[i].data in Contents(files)
  {
  }

  lemma NothingAdded(files: Files, w: Written)
    requires w.id !in files && w.records == []
    ensures Contents(files[w.id := w]) == Contents(files)
  {
    var all := files[w.id := w];
    forall d | d in Contents(files) ensures d in Contents(all) {
      var n, i :| n in files && 0 <= i < |files[n].records| && files[n].records[i].data == d;
      InContents(all, n, i);
    }
  }

  // ---------------------------------------------------------------- states a crash may leave

  /** Every original segment is in place or in its backup; everything else in place is new. */
  ghost predicate CanRollBack(active: Files, backup: Files, before: Files, next: Files) {
    && (forall n :: n in backup ==> n in before && backup[n] == before[n])
    && (forall n :: n in before && n !in backup ==> n in active && active[n] == before[n])
    && (forall n :: n in active ==> (n in before && active[n] == before[n]) || (n in next && active[n] == next[n]))
  }

  /** What start-up finds after any crash of a swap from `before` to `next`, which retains `kept`: a
      complete marker means all new segments are in place. */
  ghost predicate Interrupted(active: Files, backup: Files, marker: Marker, before: Files, next: Files,
                              kept: set<Bytes>) {
    if marker.Done? || (marker.Absent? && backup == map[] && active == next && Contents(next) == kept) then
      active == next && Contents(next) == kept
    else
      CanRollBack(active, backup, before, next) && Contents(next) <= Contents(before)
  }

  /** With nothing left to roll back, the data in place are the original ones, even if new segments
      with higher numbers were left behind. */
  lemma RolledBackContents(active: Files, before: Files, next: Files)
    requires CanRollBack(active, map[], before, next) && Contents(next) <= Contents(before)
    ensures Contents(active) == Contents(before)
  {
    forall d | d in Contents(before) ensures d in Contents(active) {
      var n, i :| n in before && 0 <= i < |before[n].records| && before[n].records[i].data == d;
      assert active[n] == before[n];
      InContents(active, n, i);
    }
    forall d | d in Contents(active) ensures d in Contents(before) {
      var n, i :| n in active && 0 <= i < |active[n].records| && active[n].records[i].data == d;
      if n in before && active[n] == before[n] { InContents(before, n, i); } else { InContents(next, n, i); }
    }
  }

  class SegmentDir {
    const lib: Codecs
    var active: Files    // segment_*.seg
    var backup: Files    // segment_*.seg.old
    var staged: Files    // segments inside .compact_tmp_*
    var marker: Marker

    /** A store's directory between operations. */
    constructor (lib: Codecs, files: Files)
      requires WholeFiles(lib, files)
      ensures Quiet() && active == files && this.lib == lib
    {
      this.lib := lib;
      active, backup, staged, marker := files, map[], map[], Absent;
    }

    ghost predicate Quiet()
      reads this
    {
      backup == map[] && staged == map[] && marker == Absent && WholeFiles(lib, active)
    }

    ghost predicate MidSwap(before: Files, next: Files, kept: set<Bytes>)
      reads this
    {
      && WholeFiles(lib, before) && WholeFiles(lib, next)
      && Interrupted(active, backup, marker, before, next, kept)
    }

    /** Stream the retained chunks, in any order, into new segments of the staging directory. A chunk
        that cannot be read back ends the collection, as a crash does. */
    method Stage(reachable: set<Bytes>, nonces: Bytes -> Bytes, now: nat) returns (done: bool)
      requires Quiet() && forall d :: |nonces(d)| == 24
      modifies this`staged
      ensures done ==> Contents(staged) == Retained(lib, Contents(active), reachable) && WholeFiles(lib, staged)
    {
      hide SegmentStore.Proper, Contents, SegmentHeader;
      var todo := Retained(lib, Contents(active), reachable);
      var last := 1;
      FreshSegment(lib, map[], 1, now);
      NothingThere();
      staged := map[1 := Written(1, SegmentHeader(1, now), [])];
      while todo != {}
        invariant last in staged && forall n :: n in staged ==> n <= last
        invariant WholeFiles(lib, staged)
        invariant Contents(staged) + todo == Retained(lib, Contents(active), reachable)
        decreases todo
      {
        if * { return false; }
        if * {
          last := last + 1;               // the active segment is full: rotate
          FreshSegment(lib, staged, last, now);
          staged := staged[last := Written(last, SegmentHeader(last, now), [])];
        }
        var d :| d in todo;
        if PayloadLength(lib, d) > MAX_SEGMENT { return false; }
        var s := Stored(d, nonces(d));
        StorableAgain(lib, active, s);
        AppendedContents(lib, staged, last, s);
        staged := staged[last := Appended(staged[last], s)];
        todo := todo - {d};
      }
      return true;
    }

    /** Phase 5a-5c: back up, move in, mark, clean up. With nothing retained no segment is moved
        in, and a fresh first segment is created at the end. */
    method Swap(ghost kept: set<Bytes>, now: nat) returns (done: bool, ghost next: Files)
      requires backup == map[] && marker == Absent && WholeFiles(lib, active) && WholeFiles(lib, staged)
      requires Contents(staged) == kept <= Contents(active)
      modifies this
      ensures done ==> Quiet() && active == next && Contents(active) == kept
      ensures MidSwap(old(active), next, kept)
    {
      hide WholeFiles, Contents, SegmentHeader;
      ghost var before := active;
      NothingThere();
      var retained := |Contents(staged)|;
      next := if retained > 0 then staged else map[];
      EmptyIsWhole(lib);
      done := BackUp(before, next);
      if !done { return false, next; }
      if retained == 0 { staged := map[]; }
      done := MoveIn(before, next);
      if !done { return false, next; }
      if * { return false, next; }
      marker := Partial;
      if * { return false, next; }
      marker := Done;
      done := CleanUp(before, next, kept);
      if done && retained == 0 {
        if * { return false, next; }
        FreshSegment(lib, map[], 1, now);
        active := map[1 := Written(1, SegmentHeader(1, now), [])];
        next := active;
      }
      if done { staged := map[]; }
    }

    /** Rename every segment to its backup. */
    method BackUp(ghost before: Files, ghost next: Files) returns (done: bool)
      requires active == before && backup == map[]
      modifies this`active, this`backup
      ensures CanRollBack(active, backup, before, next)
      ensures done ==> active == map[] && backup.Keys == before.Keys
    {
      while active != map[]
        invariant CanRollBack(active, backup, before, next)
        invariant forall n :: n in active ==> n in before && n !in backup
        decreases active.Keys
      {
        if * { return false; }
        var n :| n in active;
        backup, active := backup[n := active[n]], active - {n};
      }
      return true;
    }

    /** Move the staged segments into place one by one; a crash leaves some of them behind. */
    method MoveIn(ghost before: Files, ghost next: Files) returns (done: bool)
      requires active == map[] && marker == Absent && staged == next
      requires CanRollBack(active, backup, before, next) && backup.Keys == before.Keys
      modifies this`active, this`staged
      ensures CanRollBack(active, backup, before, next)
      ensures done ==> active == next && staged == map[]
    {
      while staged != map[]
        invariant CanRollBack(active, backup, before, next)
        invariant forall n :: n in next <==> n in active || n in staged
        invariant forall n :: n in active ==> n in next && active[n] == next[n]
        invariant forall n :: n in staged ==> n in next && staged[n] == next[n] && n !in active
        decreases staged.Keys
      {
        if * { return false; }
        var n :| n in staged;
        active, staged := active[n := staged[n]], staged - {n};
      }
      return true;
    }

    /** Delete the backups, then the marker; start-up after a completed swap does the same. */
    method CleanUp(ghost before: Files, ghost next: Files, ghost kept: set<Bytes>) returns (done: bool)
      requires marker == Done && active == next && Contents(next) == kept
      requires WholeFiles(lib, before) && WholeFiles(lib, next)
      modifies this`backup, this`marker
      ensures MidSwap(before, next, kept)
      ensures done ==> backup == map[] && marker == Absent
    {
      while backup != map[]
        invariant marker == Done
        decreases backup.Keys
      {
        if * { return false; }
        var n :| n in backup;
        backup := backup - {n};
      }
      if * { return false; }
      marker := Absent;
      return true;
    }

    /** The compaction part of `recover_and_index`. */
    method Recover(ghost before: Files, ghost next: Files, ghost kept: set<Bytes>) returns (done: bool)
      requires MidSwap(before, next, kept)
      modifies this
      ensures MidSwap(before, next, kept)
      ensures done ==> Quiet() && (Contents(active) == Contents(before) || Contents(active) == kept)
      ensures done && old(marker) == Done ==> active == next
    {
      hide WholeFiles, Contents, CanRollBack;
      staged := map[];
      if backup != map[] && marker == Done {
        done := CleanUp(before, next, kept);
        return;
      }
      if backup != map[] {
        done := RollBack(before, next);
        if !done { return; }
      }
      RolledBackOrNew(before, next, kept);
      if * { return false; }
      marker := Absent;
      return true;
    }

    /** With no backup left, the directory is the original one or the new one. */
    lemma RolledBackOrNew(before: Files, next: Files, kept: set<Bytes>)
      requires MidSwap(before, next, kept) && backup == map[]
      ensures WholeFiles(lib, active)
      ensures if marker == Done then active == next && Contents(active) == kept
              else Contents(active) == Contents(before) || (active == next && Contents(active) == kept)
      ensures Interrupted(active, map[], Absent, before, next, kept)
    {
      hide Contents, WholeFiles;
      if marker != Done && !(marker == Absent && active == next && Contents(next) == kept) {
        RolledBackContents(active, before, next);
        WholeEitherWay(lib, active, map[], before, next);
      }
    }

    /** Restore exactly the segments that have a backup. */
    method RollBack(ghost before: Files, ghost next: Files) returns (done: bool)
      requires CanRollBack(active, backup, before, next)
      modifies this`active, this`backup
      ensures CanRollBack(active, backup, before, next)
      ensures done ==> backup == map[]
    {
      while backup != map[]
        invariant CanRollBack(active, backup, before, next)
        decreases backup.Keys
      {
        if * { return false; }
        var n :| n in backup;
        active := active - {n};
        if * { return false; }
        active, backup := active[n := backup[n]], backup - {n};
      }
      return true;
    }

    /** One collection, crashing anywhere, then start-ups that crash anywhere: whenever one of them
        completes, the data are all of the original ones or exactly the reachable ones. */
    method CollectAndRecover(reachable: set<Bytes>, nonces: Bytes -> Bytes, now: nat, attempts: nat) returns
                             (ready: bool)
      requires Quiet() && forall d :: |nonces(d)| == 24
      modifies this
      ensures ready ==> Quiet()
      ensures ready ==> Contents(active) == Contents(old(active)) ||
                        Contents(active) == Retained(lib, Contents(old(active)), reachable)
    {
      hide SegmentStore.Proper, Contents;
      ghost var kept := Retained(lib, Contents(active), reachable);
      if Retained(lib, Contents(active), reachable) == Contents(active) { return true; }  // nothing is dead
      ghost var before, next := active, map[];
      NothingThere();
      ready := Stage(reachable, nonces, now);
      if ready {
        ready, next := Swap(kept, now);
      }
      for i := 0 to attempts
        invariant MidSwap(before, next, kept)
        invariant ready ==> Quiet()
        invariant ready ==> Contents(active) == Contents(before) || Contents(active) == kept
      {
        ready := Recover(before, next, kept);
      }
    }
  }

  lemma EmptyIsWhole(lib: Codecs)
    ensures WholeFiles(lib, map[])
  {
  }

  lemma WholeEitherWay(lib: Codecs, active: Files, backup: Files, before: Files, next: Files)
    requires CanRollBack(active, backup, before, next) && WholeFiles(lib, before) && WholeFiles(lib, next)
    ensures WholeFiles(lib, active)
  {
    hide SegmentStore.Proper;
  }

  lemma NothingThere()
    ensures Contents(map[]) == {}
  {
  }

  lemma FreshSegment(lib: Codecs, files: Files, n: nat, now: nat)
    requires WholeFiles(lib, files) && n !in files
    ensures var w := Written(n, SegmentHeader(n, now), []);
            WholeFiles(lib, files[n := w]) && Contents(files[n := w]) == Contents(files)
    ensures var w := Written(n, SegmentHeader(n, now), []); SegmentStore.Proper(lib, w) && Contents(map[n := w]) == {}
  {
    WrittenHeader(n, now);
    NothingAdded(files, Written(n, SegmentHeader(n, now), []));
  }

  function Appended(w: Written, s: Stored): Written {
    Written(w.id, w.head, w.records + [s])
  }

  /** Data read from a segment can be stored again. */
  lemma StorableAgain(lib: Codecs, files: Files, s: Stored)
    requires WholeFiles(lib, files) && s.data in Contents(files) && |s.nonce| == 24
    ensures Storable(lib, s)
  {
    var n, i :| n in files && 0 <= i < |files[n].records| && files[n].records[i].data == s.data;
    assert SegmentStore.Proper(lib, files[n]) && Storable(lib, files[n].records[i]);
  }

  lemma AppendedContents(lib: Codecs, files: Files, n: nat, s: Stored)
    requires WholeFiles(lib, files) && n in files && Storable(lib, s)
    ensures var all := files[n := Appended(files[n], s)];
            WholeFiles(lib, all) && Contents(all) == Contents(files) + {s.data}
  {
    hide Storable;
    var all := files[n := Appended(files[n], s)];
    assert all[n].records[|files[n].records|] == s;
    assert SegmentStore.Proper(lib, files[n]);
    assert SegmentStore.Proper(lib, all[n]);
    forall d | d in Contents(files) ensures d in Contents(all) {
      var m, i :| m in files && 0 <= i < |files[m].records| && files[m].records[i].data == d;
      assert all[m].records[i] == files[m].records[i];
    }
  }

  /** The swap never loses a reachable chunk, whichever of its two outcomes recovery reaches. */
  lemma ReachableSurvives(lib: Codecs, before: Files, after: Files, reachable: set<Bytes>, d: Bytes)
    requires Contents(after) == Contents(before) || Contents(after) == Retained(lib, Contents(before), reachable)
    requires d in Contents(before) && lib.hash(d) in reachable
    ensures d in Contents(after)
  {
  }
}
