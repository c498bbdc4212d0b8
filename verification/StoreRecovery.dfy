/** Start-up as a whole: the directory that an interrupted collection and its recovery leave is listed,
    scanned and opened, also when chunks are stored twice in it. */
module StoreRecovery {
  import opened Basics
  import opened SegmentFormat
  import opened SegmentScan
  import SegmentStore
  import Compaction

  lemma SmallestKey(files: Compaction.Files) returns (n: nat)
    requires files != map[]
    ensures n in files && forall m :: m in files ==> n <= m
  {
    var k :| k in files;
    n := k;
    var seen := {k};
    while seen != files.Keys
      invariant n in files && seen <= files.Keys && forall m :: m in seen ==> n <= m
      decreases files.Keys - seen
    {
      var m :| m in files && m !in seen;
      if m < n { n := m; }
      seen := seen + {m};
    }
  }

  lemma TakenOut(files: Compaction.Files, n: nat)
    requires n in files
    ensures Compaction.Contents(files) == SegmentStore.DataIn(files[n].records) + Compaction.Contents(files - {n})
  {
    forall d | d in SegmentStore.DataIn(files[n].records) + Compaction.Contents(files - {n})
      ensures d in Compaction.Contents(files)
    {
      if d in SegmentStore.DataIn(files[n].records) {
        var i :| 0 <= i < |files[n].records| && files[n].records[i].data == d;
        Compaction.InContents(files, n, i);
      } else {
        var m, i :| m in files - {n} && 0 <= i < |files[m].records| && files[m].records[i].data == d;
        Compaction.InContents(files, m, i);
      }
    }
    forall d | d in Compaction.Contents(files)
      ensures d in SegmentStore.DataIn(files[n].records) + Compaction.Contents(files - {n})
    {
      var m, i :| m in files && 0 <= i < |files[m].records| && files[m].records[i].data == d;
      if m != n { Compaction.InContents(files - {n}, m, i); }
    }
  }

  ghost predicate Rising(log: seq<Written>) {
    forall i, j :: 0 <= i < j < |log| ==> log[i].id < log[j].id
  }

  /** The segments listed so far, and those still to come. */
  ghost predicate Partly(lib: Codecs, files: Compaction.Files, log: seq<Written>, rest: Compaction.Files) {
    && SegmentStore.AllProper(lib, log) && Rising(log) && Compaction.WholeFiles(lib, rest)
    && (forall i, n :: 0 <= i < |log| && n in rest ==> log[i].id < n)
    && SegmentStore.DataOf(log) + Compaction.Contents(rest) == Compaction.Contents(files)
  }

  lemma ListNext(lib: Codecs, files: Compaction.Files, log: seq<Written>, rest: Compaction.Files, n: nat)
    requires Partly(lib, files, log, rest) && n in rest && forall m :: m in rest ==> n <= m
    ensures Partly(lib, files, log + [rest[n]], rest - {n})
  {
    hide SegmentStore.Proper, SegmentStore.DataOf, SegmentStore.DataIn, Compaction.Contents, SegmentStore.IndexAll;
    hide SegmentStore.ChunksAll, SegmentStore.Disk;
    TakenOut(rest, n);
    SegmentStore.Extended(lib, log, rest[n]);
  }

  /** The segments of a directory by ascending number. */
  method Listing(lib: Codecs, files: Compaction.Files) returns (log: seq<Written>)
    requires Compaction.WholeFiles(lib, files)
    ensures SegmentStore.AllProper(lib, log) && Rising(log)
    ensures SegmentStore.DataOf(log) == Compaction.Contents(files)
  {
    log := [];
    var rest := files;
    NothingListed();
    assert Partly(lib, files, log, rest);
    hide SegmentStore.Proper, SegmentStore.DataOf, Compaction.Contents;
    while rest != map[]
      invariant Partly(lib, files, log, rest)
      decreases rest.Keys
    {
      ghost var _ := SmallestKey(rest);
      var n :| n in rest && forall m :: m in rest ==> n <= m;
      ListNext(lib, files, log, rest, n);
      log, rest := log + [rest[n]], rest - {n};
    }
  }

  lemma NothingListed()
    ensures SegmentStore.DataOf([]) == {} && Compaction.Contents(map[]) == {}
  {
  }

  lemma {:induction false} DiskAscends(lib: Codecs, log: seq<Written>)
    requires SegmentStore.AllProper(lib, log) && Rising(log)
    ensures Ascending(SegmentStore.Disk(lib, log))
  {
    hide SegmentStore.Disk, SegmentStore.Proper, SegmentStore.FileOf;
    forall i | 0 <= i < |log| ensures SegmentStore.Disk(lib, log)[i].id == log[i].id {
      SegmentStore.DiskAt(lib, log, i);
      SegmentStore.FileId(lib, log, i);
    }
  }

  /** The chunk map of retained data is the restriction of the chunk map. */
  lemma RetainedIsRestricted(lib: Codecs, chunks: SegmentStore.Chunks, data: set<Bytes>, ids: set<Bytes>)
    requires SegmentStore.Holds(lib, chunks, data) && SegmentStore.Injective(lib, data)
    ensures SegmentStore.Holds(lib, SegmentStore.Restrict(chunks, ids), Compaction.Retained(lib, data, ids))
  {
  }

  /** A collection of a store's directory crashing anywhere, start-ups crashing anywhere, then an opening:
      the store opened has the whole old chunk map or exactly its restriction to the reachable ids, all of
      it durable, with an index equal to a rescan, whatever segments were left behind. */
  method CollectAndOpen(dir: Compaction.SegmentDir, ghost log: seq<Written>, reachable: set<Bytes>,
                        nonces: Bytes -> Bytes, now: nat, maxSize: nat, attempts: nat)
      returns (ready: bool, store: SegmentStore.Store)
    requires dir.Quiet() && Sane(dir.lib) && forall d :: |nonces(d)| == 24
    requires SegmentStore.DataOf(log) == Compaction.Contents(dir.active)
    requires SegmentStore.Injective(dir.lib, SegmentStore.DataOf(log))
    modifies dir
    ensures ready ==> store.Valid() && store.lib == dir.lib && store.Durable() == store.Contents()
    ensures ready ==> store.Contents() == SegmentStore.ChunksAll(dir.lib, log) ||
                      store.Contents() == SegmentStore.Restrict(SegmentStore.ChunksAll(dir.lib, log), reachable)
  {
    hide SegmentStore.DataOf, SegmentStore.ChunksAll, Compaction.Contents, Sane, SegmentStore.Disk, SegmentStore.Holds;
    hide SegmentStore.Restrict, SegmentStore.AllProper, Compaction.WholeFiles;
    ghost var data := Compaction.Contents(dir.active);
    ready := dir.CollectAndRecover(reachable, nonces, now, attempts);
    if !ready {
      store := new SegmentStore.Store(dir.lib, maxSize, now);
      return;
    }
    var listed := Listing(dir.lib, dir.active);
    DiskAscends(dir.lib, listed);
    SameChunks(dir.lib, log, listed, reachable);
    store := new SegmentStore.Store.Open(dir.lib, maxSize, SegmentStore.Disk(dir.lib, listed), now, listed);
  }

  lemma SameChunks(lib: Codecs, log: seq<Written>, listed: seq<Written>, reachable: set<Bytes>)
    requires SegmentStore.Injective(lib, SegmentStore.DataOf(log))
    requires SegmentStore.DataOf(listed) == SegmentStore.DataOf(log) ||
             SegmentStore.DataOf(listed) == Compaction.Retained(lib, SegmentStore.DataOf(log), reachable)
    ensures SegmentStore.Injective(lib, SegmentStore.DataOf(listed))
    ensures var all := SegmentStore.ChunksAll(lib, log);
            SegmentStore.ChunksAll(lib, listed) == all || SegmentStore.ChunksAll(lib, listed) ==
                SegmentStore.Restrict(all, reachable)
  {
    hide SegmentStore.DataOf, SegmentStore.ChunksAll, SegmentStore.Holds, SegmentStore.Restrict;
    var all, now := SegmentStore.ChunksAll(lib, log), SegmentStore.ChunksAll(lib, listed);
    var data, left := SegmentStore.DataOf(log), SegmentStore.DataOf(listed);
    SegmentStore.ChunksHold(lib, log);
    SegmentStore.ChunksHold(lib, listed);
    RetainedIsRestricted(lib, all, data, reachable);
    if left == data {
      SegmentStore.HeldSubmap(lib, now, all, left, data);
    } else {
      SegmentStore.HeldSubmap(lib, now, SegmentStore.Restrict(all, reachable), left, left);
    }
  }

  // ---------------------------------------------------------------- a store's own directory

  function FilesOf(log: seq<Written>): Compaction.Files {
    if log == [] then map[] else FilesOf(log[..|log| - 1])[log[|log| - 1].id := log[|log| - 1]]
  }

  lemma {:induction false} FilesOfIds(log: seq<Written>)
    ensures forall n :: n in FilesOf(log) ==> exists i :: 0 <= i < |log| && log[i].id == n
  {
    if log != [] { FilesOfIds(log[..|log| - 1]); }
  }

  /** The segments of a store as the files a collection finds. */
  lemma {:induction false} DirectoryOf(lib: Codecs, log: seq<Written>)
    requires SegmentStore.AllProper(lib, log) && Rising(log)
    ensures Compaction.WholeFiles(lib, FilesOf(log))
    ensures Compaction.Contents(FilesOf(log)) == SegmentStore.DataOf(log)
  {
    if log == [] {
      NothingListed();
    } else {
      hide SegmentStore.Proper, Compaction.Contents, SegmentStore.DataIn;
      var n := |log| - 1;
      DirectoryOf(lib, log[..n]);
      LastFile(log);
      TakenOut(FilesOf(log), log[n].id);
      assert SegmentStore.Proper(lib, log[n]);
    }
  }

  lemma LastFile(log: seq<Written>)
    requires log != [] && Rising(log)
    ensures var n := |log| - 1;
            && FilesOf(log) == FilesOf(log[..n])[log[n].id := log[n]]
            && FilesOf(log) - {log[n].id} == FilesOf(log[..n])
  {
    FilesOfIds(log[..|log| - 1]);
  }
}
