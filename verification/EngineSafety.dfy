/** What holds in every reachable state of the engine, whatever crashes happened: nothing that is
    listed or captured ever loses its bytes. */
module EngineSafety {
  import opened Basics
  import opened Catalog
  import opened Versions
  import opened Engine

  // ---------------------------------------------------------------- contents

  /** The bytes a chunk list spells, by the digests themselves. */
  function Spell(chunks: seq<Digest>): Bytes {
    if chunks == [] then [] else Spell(chunks[..|chunks| - 1]) + chunks[|chunks| - 1].data
  }

  /** The manifest names its content, spells it, and says its size. */
  predicate ManifestOk(d: Digest, m: Manifest) {
    m.content == d && Spell(m.chunks) == d.data && m.totalSize == |d.data|
  }

  predicate StoreOk(s: State) {
    s.durable <= s.written.Keys && forall d :: d in s.written ==> s.written[d] == d.data
  }

  /** The manifest exists and all its chunks are durable. */
  predicate Backed(manifests: map<Digest, Manifest>, durable: set<Digest>, d: Digest) {
    d in manifests && ChunksIn(manifests[d], durable)
  }

  predicate RecordBacked(manifests: map<Digest, Manifest>, durable: set<Digest>, record: Record) {
    forall i :: 0 <= i < |record.versions| ==>
      && Backed(manifests, durable, record.versions[i].manifest)
      && record.versions[i].size == |record.versions[i].manifest.data|
  }

  predicate EntriesBacked(manifests: map<Digest, Manifest>, durable: set<Digest>, entries: map<Name, Entry>) {
    forall n :: n in entries ==>
      Backed(manifests, durable, entries[n].manifest) && entries[n].size == |entries[n].manifest.data|
  }

  /** What a snapshot must restore to: each name with the bytes its manifest id is the hash of. */
  function Promised(entries: map<Name, Entry>): map<Name, Option<Bytes>> {
    map n | n in entries :: Some(entries[n].manifest.data)
  }

  ghost predicate TablesBacked(t: Tables, durable: set<Digest>) {
    && (forall d :: d in t.manifests ==> ManifestOk(d, t.manifests[d]))
    && (forall id :: id in t.objects ==> RecordBacked(t.manifests, durable, t.objects[id]))
    && (forall tag :: tag in t.snapshots ==> EntriesBacked(t.manifests, durable, t.snapshots[tag]))
  }

  ghost predicate ShotsOk(t: Tables, shots: map<Label, map<Name, Option<Bytes>>>) {
    && shots.Keys == t.snapshots.Keys
    && (forall tag :: tag in t.snapshots ==> shots[tag] == Promised(t.snapshots[tag]))
  }

  predicate RecsOk(recs: seq<PutRec>) {
    forall i :: 0 <= i < |recs| ==> ManifestOk(recs[i].manifest.content, recs[i].manifest)
  }

  predicate PartsIn(parts: seq<Bytes>, k: nat, store: set<Digest>)
    requires k <= |parts|
  {
    forall i :: 0 <= i < k ==> Digest(parts[i]) in store
  }

  /** What the point of execution adds. */
  ghost predicate PcSound(s: State) {
    match s.pc
    case Writing(_, job, k) => k <= |job.parts| && PartsIn(job.parts, k, s.written.Keys)
    case Synced(_, job) => PartsIn(job.parts, |job.parts|, s.durable)
    case Applying(_, recs, k, stage, _, replay) =>
      && RecsOk(recs) && stage < 3
      && (!replay ==> LogChunksIn(recs, s.durable))
      && (stage > 0 && k < |recs| ==> Backed(s.tables.manifests, s.durable, recs[k].manifest.content))
    case Sweeping(_, dead, live) =>
      && (forall d :: d in dead ==> !Referenced(s.tables, d))
      && (forall d :: Referenced(s.tables, d) && d in s.tables.manifests ==> ChunksIn(s.tables.manifests[d], live))
    case _ => true
  }

  ghost predicate Sound(s: State) {
    StoreOk(s) && TablesBacked(s.tables, s.durable) && ShotsOk(s.tables, s.shots) && RecsOk(s.log) && PcSound(s)
  }

  // ---------------------------------------------------------------- what soundness gives readers

  lemma {:induction false} AssembleIsSpell(written: map<Digest, Bytes>, chunks: seq<Digest>)
    requires forall d :: d in written ==> written[d] == d.data
    requires forall i :: 0 <= i < |chunks| ==> chunks[i] in written
    ensures Assemble(written, chunks) == Spell(chunks)
  {
    if chunks != [] { AssembleIsSpell(written, chunks[..|chunks| - 1]); }
  }

  lemma BackedExtracts(s: State, d: Digest)
    requires StoreOk(s) && Backed(s.tables.manifests, s.durable, d)
    requires ManifestOk(d, s.tables.manifests[d])
    ensures Extract(s.tables, s.written, d) == Some(d.data)
  {
    AssembleIsSpell(s.written, s.tables.manifests[d].chunks);
  }

  /** Every version listed by any object, named or not, extracts to the bytes its id is the hash of. */
  lemma ListedVersionsExtract(s: State, id: ObjectId, i: nat)
    requires Sound(s) && id in s.tables.objects && i < |s.tables.objects[id].versions|
    ensures var d := s.tables.objects[id].versions[i].manifest; Extract(s.tables, s.written, d) == Some(d.data)
  {
    assert RecordBacked(s.tables.manifests, s.durable, s.tables.objects[id]);
    BackedExtracts(s, s.tables.objects[id].versions[i].manifest);
  }

  /** Backed entries restore to what they promise. */
  lemma BackedEntriesRestore(s: State, entries: map<Name, Entry>)
    requires StoreOk(s) && TablesBacked(s.tables, s.durable) && EntriesBacked(s.tables.manifests, s.durable, entries)
    ensures Restore(s.tables, s.written, entries) == Promised(entries)
  {
    forall n | n in entries
      ensures Extract(s.tables, s.written, entries[n].manifest) == Some(entries[n].manifest.data)
    {
      assert Backed(s.tables.manifests, s.durable, entries[n].manifest);
      BackedExtracts(s, entries[n].manifest);
    }
  }

  /** A snapshot restores to exactly what it restored to when it was taken. */
  lemma SnapshotsRestore(s: State, tag: Label)
    requires Sound(s) && tag in s.tables.snapshots
    ensures tag in s.shots && Restore(s.tables, s.written, s.tables.snapshots[tag]) == s.shots[tag]
    ensures forall n :: n in s.shots[tag] ==> s.shots[tag][n].Some?
  {
    BackedEntriesRestore(s, s.tables.snapshots[tag]);
  }

  // ---------------------------------------------------------------- growing the store

  lemma BackedGrows(t: Tables, durable: set<Digest>, more: set<Digest>)
    requires TablesBacked(t, durable) && durable <= more
    ensures TablesBacked(t, more)
  {
  }

  lemma {:induction false} SpellOfParts(parts: seq<Bytes>, ids: seq<Digest>)
    requires |ids| == |parts| && forall i :: 0 <= i < |ids| ==> ids[i] == Digest(parts[i])
    ensures Spell(ids) == Concat(parts)
  {
    if parts != [] { SpellOfParts(parts[..|parts| - 1], ids[..|ids| - 1]); }
  }

  lemma ManifestForOk(job: Job)
    ensures ManifestOk(ManifestFor(job).content, ManifestFor(job))
    ensures |ManifestFor(job).chunks| == |job.parts|
    ensures forall i :: 0 <= i < |job.parts| ==> ManifestFor(job).chunks[i] == Digest(job.parts[i])
  {
    SpellOfParts(job.parts, ManifestFor(job).chunks);
  }

  lemma WritingStepSound(s: State)
    requires Sound(s) && s.pc.Writing?
    ensures Sound(WritingStep(s))
  {
    hide TablesBacked, ShotsOk, RecsOk;
    var s' := WritingStep(s);
    if s.pc.k >= |s.pc.job.parts| { BackedGrows(s.tables, s.durable, s'.durable); }
  }

  lemma CommitStepSound(s: State)
    requires Sound(s) && s.pc.Synced?
    ensures Sound(CommitStep(s))
  {
    hide TablesBacked, ShotsOk, ManifestFor, ManifestOk;
    var job := s.pc.job;
    if NameResolves(s.tables, job.name) {
      ManifestForOk(job);
      RecordForIds(s.tables, job, s.pc.current + 1);
    }
  }

  // ---------------------------------------------------------------- applying a record

  /** Saving a manifest whose chunks are durable keeps everything backed, also over an older
      manifest of the same content. */
  lemma SaveKeepsBacked(t: Tables, durable: set<Digest>, m: Manifest)
    requires TablesBacked(t, durable) && ManifestOk(m.content, m) && ChunksIn(m, durable)
    ensures TablesBacked(SaveManifest(t, m), durable)
    ensures Backed(SaveManifest(t, m).manifests, durable, m.content)
  {
  }

  lemma AppendKeepsBacked(t: Tables, durable: set<Digest>, id: ObjectId, record: Record, latest: nat, v: Version)
    requires TablesBacked(t, durable) && RecordBacked(t.manifests, durable, record)
    requires Backed(t.manifests, durable, v.manifest) && v.size == |v.manifest.data|
    ensures TablesBacked(t.(objects := t.objects[id := Record(latest, record.versions + [v])]), durable)
  {
    hide Backed;
  }

  lemma StageKeepsBacked(t: Tables, durable: set<Digest>, r: PutRec, stage: nat)
    requires TablesBacked(t, durable) && ManifestOk(r.manifest.content, r.manifest)
    requires stage == 0 ==> ChunksIn(r.manifest, durable)
    requires stage > 0 ==> Backed(t.manifests, durable, r.manifest.content)
    ensures TablesBacked(Stage(t, r, stage), durable)
    ensures Backed(Stage(t, r, stage).manifests, durable, r.manifest.content)
    ensures Stage(t, r, stage).snapshots == t.snapshots
  {
    if stage == 0 {
      SaveKeepsBacked(t, durable, r.manifest);
    } else if stage == 1 {
      hide Backed;
      var prior := RecordOr(t.objects, r);
      assert RecordBacked(t.manifests, durable, prior);
      AppendKeepsBacked(t, durable, r.id, prior, r.number, VersionOf(r));
    }
  }

  lemma ApplyStepSound(s: State)
    requires Sound(s) && s.pc.Applying?
    ensures Sound(ApplyStep(s))
  {
    hide TablesBacked, Stage, Backed, ManifestOk;
    var Applying(current, recs, k, stage, lsn, replay) := s.pc;
    var s' := ApplyStep(s);
    if k < |recs| && !s'.pc.Failed? {
      BackedGrows(s.tables, s.durable, s'.durable);
      StageKeepsBacked(s.tables, s'.durable, recs[k], stage) by {
        if stage > 0 { assert s'.durable == s.durable; }
      }
    }
  }

  // ---------------------------------------------------------------- metadata operations

  /** Removing objects, versions or snapshots, or touching names only, cannot lose backing. */
  lemma FewerReferences(t: Tables, t': Tables, durable: set<Digest>)
    requires TablesBacked(t, durable) && t'.manifests == t.manifests
    requires forall id :: id in t'.objects ==> RecordBacked(t.manifests, durable, t'.objects[id])
    requires forall tag :: tag in t'.snapshots ==> EntriesBacked(t.manifests, durable, t'.snapshots[tag])
    ensures TablesBacked(t', durable)
  {
  }

  lemma RollbackBacked(t: Tables, durable: set<Digest>, name: Name, number: nat, now: nat)
    requires TablesBacked(t, durable)
    ensures TablesBacked(Rollback(t, name, number, now), durable)
  {
    hide Backed;
    var t' := Rollback(t, name, number, now);
    if t' != t {
      var id := t.names[name];
      var record := t.objects[id];
      var i := FindVersion(record.versions, number);
      assert RecordBacked(t.manifests, durable, record);
      var v := Version(NextNumber(record), record.versions[i].manifest, record.versions[i].size, now);
      AppendKeepsBacked(t, durable, id, record, v.number, v);
    }
  }

  lemma PruneBacked(t: Tables, durable: set<Digest>, name: Name, keep: nat)
    requires TablesBacked(t, durable)
    ensures TablesBacked(Prune(t, name, keep), durable)
  {
  }

  lemma SnapshotBacked(t: Tables, durable: set<Digest>, tag: Label)
    requires TablesBacked(t, durable)
    ensures TablesBacked(Snapshot(t, tag), durable)
    ensures EntriesBacked(t.manifests, durable, Capture(t))
  {
  }

  lemma SnapshotOfSound(s: State, tag: Label)
    requires Sound(s) && s.pc.Idle?
    ensures Sound(SnapshotOf(s, tag))
  {
    hide Capture, EntriesBacked, Promised, Restore, TablesBacked, ShotsOk, ManifestOk;
    SnapshotBacked(s.tables, s.durable, tag);
    var s' := SnapshotOf(s, tag);
    if s'.tables != s.tables {
      BackedEntriesRestore(s', Capture(s.tables));
      OneMoreShot(s.tables, s.shots, tag, Capture(s.tables));
    }
  }

  lemma OneMoreShot(t: Tables, shots: map<Label, map<Name, Option<Bytes>>>, tag: Label, entries: map<Name, Entry>)
    requires ShotsOk(t, shots)
    ensures ShotsOk(t.(snapshots := t.snapshots[tag := entries]), shots[tag := Promised(entries)])
  {
    hide Promised;
  }

  lemma MarkSound(s: State)
    requires Sound(s) && s.pc.Idle?
    ensures MarkSucceeds(s.tables)
    ensures Sound(IdleOp(s, StartGc))
  {
    var t := s.tables;
    forall id, i | id in t.objects && 0 <= i < |t.objects[id].versions|
      ensures t.objects[id].versions[i].manifest in t.manifests
    {
      assert RecordBacked(t.manifests, s.durable, t.objects[id]);
      assert Backed(t.manifests, s.durable, t.objects[id].versions[i].manifest);
    }
    forall tag, n | tag in t.snapshots && n in t.snapshots[tag]
      ensures t.snapshots[tag][n].manifest in t.manifests
    {
      assert EntriesBacked(t.manifests, s.durable, t.snapshots[tag]);
      assert Backed(t.manifests, s.durable, t.snapshots[tag][n].manifest);
    }
    forall d | Referenced(t, d) && d in t.manifests ensures ChunksIn(t.manifests[d], LiveChunks(t)) {
      forall i | 0 <= i < |t.manifests[d].chunks| ensures t.manifests[d].chunks[i] in LiveChunks(t) {}
    }
  }

  lemma NameOpsBacked(t: Tables, durable: set<Digest>, name: Name, to: Name, tag: Label)
    requires TablesBacked(t, durable)
    ensures TablesBacked(Rename(t, name, to), durable) && TablesBacked(Unbind(t, name), durable)
    ensures TablesBacked(Delete(t, name), durable) && TablesBacked(DropSnapshot(t, tag), durable)
  {
    hide Backed;
    FewerReferences(t, Rename(t, name, to), durable);
    FewerReferences(t, Delete(t, name), durable);
  }

  lemma ShotsFollow(t: Tables, shots: map<Label, map<Name, Option<Bytes>>>, t': Tables, tag: Label)
    requires ShotsOk(t, shots)
    ensures t'.snapshots == t.snapshots ==> ShotsOk(t', shots)
    ensures ShotsOk(DropSnapshot(t, tag), shots - {tag})
  {
    hide Promised;
  }

  lemma IdleOpSound(s: State, ev: Event)
    requires Sound(s) && s.pc.Idle?
    ensures Sound(IdleOp(s, ev))
  {
    hide TablesBacked, ShotsOk, RecsOk, Referenced, MarkSucceeds, RolledBack;
    ShotsFollow(s.tables, s.shots, IdleOp(s, ev).tables, if ev.DeleteSnapshot? then ev.tag else "");
    match ev
    case RollbackFile(name, number, now) => RollbackBacked(s.tables, s.durable, name, number, now);
    case PruneVersions(name, keep) => PruneBacked(s.tables, s.durable, name, keep);
    case RenameFile(name, to) => NameOpsBacked(s.tables, s.durable, name, to, "");
    case UnbindFile(name) => NameOpsBacked(s.tables, s.durable, name, name, "");
    case DeleteFile(name) => NameOpsBacked(s.tables, s.durable, name, name, "");
    case CreateSnapshot(tag) => SnapshotOfSound(s, tag);
    case DeleteSnapshot(tag) => NameOpsBacked(s.tables, s.durable, "", "", tag);
    case StartGc => MarkSound(s);
    case _ =>
  }

  // ---------------------------------------------------------------- sweep and compaction

  /** If what is referenced stays backed in the new store, the tables stay backed. */
  lemma RebackReferenced(t: Tables, t': Tables, durable: set<Digest>, durable': set<Digest>)
    requires TablesBacked(t, durable)
    requires t'.objects == t.objects && t'.snapshots == t.snapshots
    requires forall d :: d in t'.manifests ==> d in t.manifests && t'.manifests[d] == t.manifests[d]
    requires forall d :: Referenced(t, d) ==> Backed(t'.manifests, durable', d)
    ensures TablesBacked(t', durable')
  {
  }

  lemma ReferencedIsBacked(t: Tables, durable: set<Digest>, d: Digest)
    requires TablesBacked(t, durable) && Referenced(t, d)
    ensures Backed(t.manifests, durable, d)
  {
  }

  lemma SweepSound(s: State, d: Digest)
    requires Sound(s) && s.pc.Sweeping?
    ensures Sound(SweepOf(s, d))
  {
    if d in s.pc.dead {
      var t, t' := s.tables, SweepOf(s, d).tables;
      forall e | Referenced(t, e) ensures Backed(t'.manifests, s.durable, e) {
        ReferencedIsBacked(t, s.durable, e);
      }
      RebackReferenced(t, t', s.durable, s.durable);
      assert forall e :: Referenced(t', e) <==> Referenced(t, e);
    }
  }

  /** Compaction to the marked chunks reclaims nothing a version or a snapshot needs. */
  lemma CompactSound(s: State)
    requires Sound(s) && s.pc.Sweeping?
    ensures Sound(CompactStep(s))
  {
    if s.pc.dead == {} {
      var s' := CompactStep(s);
      forall e | Referenced(s.tables, e) ensures Backed(s.tables.manifests, s'.durable, e) {
        ReferencedIsBacked(s.tables, s.durable, e);
        var m := s.tables.manifests[e];
        assert ChunksIn(m, s.pc.live) && ChunksIn(m, s.durable);
        forall i | 0 <= i < |m.chunks| ensures m.chunks[i] in s'.durable {}
      }
      RebackReferenced(s.tables, s.tables, s.durable, s'.durable);
    }
  }

  lemma CrashSound(s: State, keep: set<Digest>)
    requires Sound(s)
    ensures Sound(CrashOf(s, keep))
  {
    hide TablesBacked, ShotsOk, RecsOk;
  }

  lemma {:induction false} PendingRecsOk(log: seq<PutRec>, ckpt: nat)
    requires RecsOk(log)
    ensures RecsOk(Pending(log, ckpt))
  {
    if log != [] { PendingRecsOk(log[..|log| - 1], ckpt); }
  }

  // ---------------------------------------------------------------- every event, every run

  lemma NextSound(s: State, ev: Event)
    requires Sound(s)
    ensures Sound(Next(s, ev))
  {
    hide Sound, IdleOp, CrashOf, OpenOf, SweepOf, WritingStep, CommitStep, ApplyStep, CheckpointStep, CompactStep;
    match ev
    case Step =>
      if s.pc.Writing? { WritingStepSound(s); }
      if s.pc.Synced? { CommitStepSound(s); }
      if s.pc.Applying? { ApplyStepSound(s); }
      if s.pc.Checkpoint? { CheckpointStepSound(s); }
      if s.pc.Sweeping? { CompactSound(s); }
    case Crash(keep) => CrashSound(s, keep);
    case Open => OpenSound(s);
    case SweepManifest(d) => if s.pc.Sweeping? { SweepSound(s, d); }
    case _ => if s.pc.Idle? { IdleOpSound(s, ev); }
  }

  lemma CheckpointStepSound(s: State)
    requires Sound(s) && s.pc.Checkpoint?
    ensures Sound(CheckpointStep(s))
  {
    hide TablesBacked, ShotsOk;
  }

  lemma OpenSound(s: State)
    requires Sound(s)
    ensures Sound(OpenOf(s))
  {
    PendingRecsOk(s.log, s.ckpt);
  }

  /** Soundness over every run, torn checkpoints and repeated crashes included. */
  lemma {:induction false} RunSound(events: seq<Event>)
    ensures Sound(Run(INIT, events))
  {
    if events != [] {
      RunSound(events[..|events| - 1]);
      NextSound(Run(INIT, events[..|events| - 1]), events[|events| - 1]);
    }
  }
}
