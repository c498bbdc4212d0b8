/** The engine's atomic steps on chunks, realised by the segment store: storing the parts of a put, losing
    unsynced bytes, and collections that crash anywhere. */
module EngineStore {
  import opened Basics
  import opened Catalog
  import opened Versions
  import opened Engine
  import SegmentFormat
  import SegmentScan
  import SegmentStore
  import Compaction
  import StoreRecovery
  import opened EngineTheorems

  /** A chunk map with each hash read as the digest of the bytes it stands for. */
  ghost function AsWritten(chunks: SegmentStore.Chunks): map<Digest, Bytes> {
    map d | d in AsDigests(chunks) :: d.data
  }

  ghost function AsDigests(chunks: SegmentStore.Chunks): set<Digest> {
    set id | id in chunks :: Digest(chunks[id])
  }

  /** The store holds the chunks the engine's state says, and at least its durable ones are durable. */
  ghost predicate Realises(store: SegmentStore.Store, s: State)
    requires store.Valid()
    reads store
  {
    AsWritten(store.Contents()) == s.written && s.durable <= AsDigests(store.Durable())
  }

  /** No data other than those stored have their hash. */
  ghost predicate NoCollision(lib: SegmentFormat.Codecs, chunks: SegmentStore.Chunks, data: Bytes) {
    forall id :: id in chunks && id == lib.hash(data) ==> chunks[id] == data
  }

  // ---------------------------------------------------------------- maps

  lemma DigestsOfMore(chunks: SegmentStore.Chunks, id: Bytes, data: Bytes)
    requires id !in chunks
    ensures AsDigests(chunks[id := data]) == AsDigests(chunks) + {Digest(data)}
    ensures AsWritten(chunks[id := data]) == AsWritten(chunks)[Digest(data) := data]
  {
    var more := chunks[id := data];
    forall d | d in AsDigests(chunks) + {Digest(data)} ensures d in AsDigests(more) {
      if d != Digest(data) {
        var k :| k in chunks && Digest(chunks[k]) == d;
        assert more[k] == chunks[k];
      } else {
        assert more[id] == data;
      }
    }
  }

  lemma StoredAlready(chunks: SegmentStore.Chunks, id: Bytes)
    requires id in chunks
    ensures Digest(chunks[id]) in AsWritten(chunks)
  {
  }

  lemma DigestsOfSubmap(a: SegmentStore.Chunks, b: SegmentStore.Chunks)
    requires SegmentStore.Submap(a, b)
    ensures AsDigests(a) <= AsDigests(b)
  {
    forall d | d in AsDigests(a) ensures d in AsDigests(b) {
      var id :| id in a && Digest(a[id]) == d;
      assert b[id] == a[id];
    }
  }

  /** A map between two others is what a crash keeps. */
  lemma BetweenIsKept(durable: SegmentStore.Chunks, left: SegmentStore.Chunks, all: SegmentStore.Chunks,
                      known: set<Digest>)
    requires SegmentStore.Submap(durable, left) && SegmentStore.Submap(left, all) && known <= AsDigests(durable)
    ensures AsWritten(left) == Keep(AsWritten(all), known + AsDigests(left))
  {
    DigestsOfSubmap(durable, left);
    DigestsOfSubmap(left, all);
  }

  /** Restricting to reachable hashes is keeping the live digests. */
  lemma RestrictedIsKept(lib: SegmentFormat.Codecs, chunks: SegmentStore.Chunks, reachable: set<Bytes>,
                         live: set<Digest>)
    requires forall id :: id in chunks ==> (id in reachable <==> Digest(chunks[id]) in live)
    ensures AsWritten(SegmentStore.Restrict(chunks, reachable)) == Keep(AsWritten(chunks), live)
    ensures AsDigests(SegmentStore.Restrict(chunks, reachable)) == Keep(AsWritten(chunks), live).Keys
  {
    var left := SegmentStore.Restrict(chunks, reachable);
    forall d | d in AsDigests(left) ensures d in AsDigests(chunks) && d in live {
      var id :| id in left && Digest(left[id]) == d;
      assert chunks[id] == left[id];
    }
    forall d | d in AsDigests(chunks) && d in live ensures d in AsDigests(left) {
      var id :| id in chunks && Digest(chunks[id]) == d;
      assert left[id] == chunks[id];
    }
  }

  // ---------------------------------------------------------------- a put's chunks

  /** Storing one part is the engine's step, whether the part is appended or found. */
  method StorePart(store: SegmentStore.Store, nonce: Bytes, now: nat, ghost s: State, part: Bytes)
    requires store.Valid() && Realises(store, s)
    requires s.pc.Writing? && s.pc.k < |s.pc.job.parts| && s.pc.job.parts[s.pc.k] == part
    requires SegmentFormat.Storable(store.lib, SegmentFormat.Stored(part, nonce))
    requires NoCollision(store.lib, store.Contents(), part)
    modifies store
    ensures store.Valid() && Realises(store, StepOf(s))
    ensures store.Contents() == old(store.Contents()) ||
            store.Contents() == old(store.Contents())[store.lib.hash(part) := part]
  {
    hide SegmentStore.Consistent, SegmentStore.ChunksAll, SegmentFormat.Storable, AsWritten, AsDigests,
         SegmentStore.CutLog;
    hide SegmentStore.Submap;
    ghost var chunks, durable := store.Contents(), store.Durable();
    store.KeysMatch();
    var id, isNew := store.PutChunk(part, nonce, now);
    DigestsOfSubmap(durable, store.Durable());
    if isNew { DigestsOfMore(chunks, id, part); } else { StoredAlready(chunks, id); }
    WrittenAgain(chunks, part);
  }

  lemma WrittenAgain(chunks: SegmentStore.Chunks, part: Bytes)
    ensures Digest(part) in AsWritten(chunks) ==> AsWritten(chunks)[Digest(part) := part] == AsWritten(chunks)
  {
  }

  /** No two of the data to come, and none of them and a stored one, share a hash. */
  ghost predicate Clear(lib: SegmentFormat.Codecs, chunks: SegmentStore.Chunks, parts: seq<Bytes>) {
    && (forall i :: 0 <= i < |parts| ==> NoCollision(lib, chunks, parts[i]))
    && (forall i, j :: 0 <= i < |parts| && 0 <= j < |parts| && lib.hash(parts[i]) == lib.hash(parts[j]) ==>
        parts[i] == parts[j])
  }

  lemma StaysClear(lib: SegmentFormat.Codecs, chunks: SegmentStore.Chunks, parts: seq<Bytes>, k: nat)
    requires Clear(lib, chunks, parts) && k < |parts|
    ensures Clear(lib, chunks[lib.hash(parts[k]) := parts[k]], parts)
  {
  }

  lemma {:induction false} OneMoreStep(s: State, n: nat)
    ensures Steps(s, n + 1) == StepOf(Steps(s, n))
    decreases n
  {
    hide StepOf;
    if n > 0 { OneMoreStep(StepOf(s), n - 1); }
  }

  /** The chunk loop of a put and the sync behind it are the engine's steps up to `Synced`. */
  method StoreParts(store: SegmentStore.Store, parts: seq<Bytes>, nonces: seq<Bytes>, now: nat, ghost s: State)
    requires store.Valid() && Realises(store, s) && |nonces| == |parts|
    requires s.pc.Writing? && s.pc.k == 0 && s.pc.job.parts == parts
    requires forall i :: 0 <= i < |parts| ==>
             SegmentFormat.Storable(store.lib, SegmentFormat.Stored(parts[i], nonces[i]))
    requires Clear(store.lib, store.Contents(), parts)
    modifies store
    ensures store.Valid() && Realises(store, Steps(s, |parts| + 1))
    ensures Steps(s, |parts| + 1).pc == Synced(s.pc.current, s.pc.job)
  {
    hide Realises, SegmentFormat.Storable, Steps, SegmentStore.ChunksAll, SegmentStore.Consistent;
    StepsNone(s);
    for k := 0 to |parts|
      invariant store.Valid() && Realises(store, Steps(s, k)) && Clear(store.lib, store.Contents(), parts)
      invariant Steps(s, k).pc == Writing(s.pc.current, s.pc.job, k)
    {
      StaysClear(store.lib, store.Contents(), parts, k);
      StorePart(store, nonces[k], now, Steps(s, k), parts[k]);
      OneMoreStep(s, k);
    }
    OneMoreStep(s, |parts|);
    SyncStep(store, Steps(s, |parts|));
  }

  method SyncStep(store: SegmentStore.Store, ghost s: State)
    requires store.Valid() && Realises(store, s) && s.pc.Writing? && s.pc.k >= |s.pc.job.parts|
    modifies store
    ensures store.Valid() && Realises(store, StepOf(s))
  {
    hide SegmentStore.Consistent, SegmentStore.ChunksAll, SegmentStore.CutLog;
    store.Sync();
  }

  // ---------------------------------------------------------------- losing bytes

  /** Losing any unsynced bytes and reopening is a crash of the engine that keeps some unsynced chunks. */
  method CrashAndReopen(store: SegmentStore.Store, cuts: seq<nat>, ghost s: State) returns (ghost keep: set<Digest>)
    requires store.Valid() && Realises(store, s)
    requires |cuts| == |store.files| == |store.durable|
    requires forall i :: 0 <= i < |cuts| ==> store.durable[i] <= cuts[i] <= |store.files[i].bytes|
    modifies store
    ensures store.Valid() && Realises(store, CrashOf(s, keep))
  {
    hide SegmentStore.Consistent, SegmentStore.ChunksAll, SegmentStore.CutLog, SegmentStore.Submap, AsWritten,
         AsDigests;
    hide TornCheckpointIsHarmless;
    ghost var all, durable := store.Contents(), store.Durable();
    store.Reopen(cuts);
    keep := AsDigests(store.Contents());
    BetweenIsKept(durable, store.Contents(), all, s.durable);
    DigestsOfSubmap(durable, store.Durable());
  }

  // ---------------------------------------------------------------- collections

  /** The reachable hashes are those of the live digests. */
  ghost predicate SameChunks(chunks: SegmentStore.Chunks, reachable: set<Bytes>, live: set<Digest>) {
    forall id :: id in chunks ==> (id in reachable <==> Digest(chunks[id]) in live)
  }

  /** A completed compaction is the engine's; one that fails on an unreadable chunk is no step. */
  method CompactStore(store: SegmentStore.Store, reachable: set<Bytes>, nonces: Bytes -> Bytes, now: nat,
                      ghost s: State)
      returns (done: bool)
    requires store.Valid() && Realises(store, s) && forall d :: |nonces(d)| == 24
    requires s.pc.Sweeping? && s.pc.dead == {} && SameChunks(store.Contents(), reachable, s.pc.live)
    modifies store
    ensures store.Valid() && Realises(store, if done then CompactStep(s) else s)
  {
    hide SegmentStore.Consistent, SegmentStore.ChunksAll, SegmentStore.CutLog, SegmentStore.Submap, AsWritten,
         AsDigests;
    hide SegmentStore.Restrict, SegmentStore.Readable;
    ghost var chunks := store.Contents();
    store.DurableIsStored();
    DigestsOfSubmap(store.Durable(), chunks);
    RestrictedIsKept(store.lib, chunks, reachable, s.pc.live);
    var r := store.Compact(reachable, nonces, now);
    return r.Some?;
  }

  /** A collection crashing anywhere, start-ups crashing anywhere, then an opening: the engine's compaction
      happened, or nothing did. */
  method CollectCrashing(dir: Compaction.SegmentDir, ghost log: seq<SegmentScan.Written>, reachable: set<Bytes>,
                         nonces: Bytes -> Bytes, now: nat, maxSize: nat, attempts: nat, ghost s: State)
      returns (ready: bool, store: SegmentStore.Store)
    requires dir.Quiet() && SegmentFormat.Sane(dir.lib) && forall d :: |nonces(d)| == 24
    requires SegmentStore.DataOf(log) == Compaction.Contents(dir.active)
    requires SegmentStore.Injective(dir.lib, SegmentStore.DataOf(log))
    requires var chunks := SegmentStore.ChunksAll(dir.lib, log);
             && AsWritten(chunks) == s.written && s.durable <= s.written.Keys
             && s.pc.Sweeping? && s.pc.dead == {} && SameChunks(chunks, reachable, s.pc.live)
    modifies dir
    ensures ready ==> store.Valid() && (Realises(store, s) || Realises(store, CompactStep(s)))
  {
    hide SegmentStore.Consistent, SegmentStore.ChunksAll, SegmentStore.CutLog, AsDigests, SegmentStore.Restrict;
    hide SegmentStore.DataOf, Compaction.Contents, SegmentFormat.Sane;
    ghost var chunks := SegmentStore.ChunksAll(dir.lib, log);
    RestrictedIsKept(dir.lib, chunks, reachable, s.pc.live);
    ready, store := StoreRecovery.CollectAndOpen(dir, log, reachable, nonces, now, maxSize, attempts);
  }
}
