/** The storage engine as a machine of durable steps: puts, write-ahead-log recovery, garbage
    collection and the metadata operations, with a crash possible between any two steps. */
module Engine {
  import opened Basics
  import opened Catalog
  import opened Versions

  /** Where the process is. A put writes chunks, syncs, appends its WAL record, applies it and
      checkpoints; opening the store replays the records above the checkpoint the same way. */
  datatype Pc =
    | Down
    | Failed                                      // open returned an error
    | Idle(current: nat)
    | Writing(current: nat, job: Job, k: nat)     // k parts appended, not yet synced
    | Synced(current: nat, job: Job)
    | Applying(current: nat, recs: seq<PutRec>, k: nat, stage: nat, lsn: nat, replay: bool)
    | Checkpoint(current: nat, lsn: nat, phase: nat)  // 0: untouched, 1: file truncated, 2: file rewritten
    | Sweeping(current: nat, dead: set<Digest>, live: set<Digest>)

  datatype State = State(
    written: map<Digest, Bytes>,   // chunks in the segment files, by the in-memory index
    durable: set<Digest>,          // those a crash cannot take back
    log: seq<PutRec>,              // whole records of wal.log
    ckpt: nat,                     // what reading checkpoint.meta gives: 0 when absent or torn
    tables: Tables,
    pc: Pc,
    // history, never read by the steps above
    spec: Tables,                  // the tables an execution of atomic operations would hold
    h: History,
    shots: map<Label, map<Name, Option<Bytes>>>,  // what each snapshot restored to when it was taken
    hazard: bool)                  // a torn checkpoint was met with a log no longer in force

  datatype Event =
    | Put(job: Job)
    | Step
    | Crash(keep: set<Digest>)     // which unsynced chunks happen to survive
    | Open
    | RollbackFile(name: Name, number: nat, now: nat)
    | PruneVersions(name: Name, keepLast: nat)
    | RenameFile(name: Name, to: Name)
    | UnbindFile(name: Name)
    | DeleteFile(name: Name)
    | CreateSnapshot(tag: Label)
    | DeleteSnapshot(tag: Label)
    | StartGc
    | SweepManifest(dead: Digest)

  const EMPTY := Tables(map[], map[], map[], map[])

  const INIT := State(map[], {}, [], 0, EMPTY, Down, EMPTY, History(map[], {}), map[], false)

  // ---------------------------------------------------------------- reading

  function Assemble(written: map<Digest, Bytes>, chunks: seq<Digest>): Bytes
    requires forall i :: 0 <= i < |chunks| ==> chunks[i] in written
  {
    if chunks == [] then [] else Assemble(written, chunks[..|chunks| - 1]) + written[chunks[|chunks| - 1]]
  }

  /** `extract_manifest_to_file`: concatenate the chunks and verify the whole-file hash. */
  function Extract(t: Tables, written: map<Digest, Bytes>, id: Digest): Option<Bytes> {
    if id in t.manifests && (forall i :: 0 <= i < |t.manifests[id].chunks| ==>
        t.manifests[id].chunks[i] in written) then
      var bytes := Assemble(written, t.manifests[id].chunks);
      if Digest(bytes) == t.manifests[id].content then Some(bytes) else None
    else None
  }

  function Restore(t: Tables, written: map<Digest, Bytes>, entries: map<Name, Entry>): map<Name, Option<Bytes>> {
    map n | n in entries :: Extract(t, written, entries[n].manifest)
  }

  // ---------------------------------------------------------------- the log

  /** Records above the checkpoint, in order. */
  function Pending(log: seq<PutRec>, ckpt: nat): seq<PutRec> {
    if log == [] then []
    else Pending(log[..|log| - 1], ckpt) + (if log[|log| - 1].lsn > ckpt then [log[|log| - 1]] else [])
  }

  function MaxLsn(log: seq<PutRec>, floor: nat): nat {
    if log == [] then floor else Max(MaxLsn(log[..|log| - 1], floor), log[|log| - 1].lsn)
  }

  predicate ChunksIn(m: Manifest, store: set<Digest>) {
    forall i :: 0 <= i < |m.chunks| ==> m.chunks[i] in store
  }

  predicate LogChunksIn(log: seq<PutRec>, store: set<Digest>) {
    forall i :: 0 <= i < |log| ==> ChunksIn(log[i].manifest, store)
  }

  // ---------------------------------------------------------------- garbage collection

  predicate InVersions(record: Record, d: Digest) {
    exists i :: 0 <= i < |record.versions| && record.versions[i].manifest == d
  }

  ghost predicate Referenced(t: Tables, d: Digest) {
    || (exists id :: id in t.objects && InVersions(t.objects[id], d))
    || (exists tag, n :: tag in t.snapshots && n in t.snapshots[tag] && t.snapshots[tag][n].manifest == d)
  }

  /** Mark fails on a referenced manifest that is missing. */
  ghost predicate MarkSucceeds(t: Tables) {
    && (forall id, i :: id in t.objects && 0 <= i < |t.objects[id].versions| ==>
        t.objects[id].versions[i].manifest in t.manifests)
    && (forall tag, n :: tag in t.snapshots && n in t.snapshots[tag] ==> t.snapshots[tag][n].manifest in t.manifests)
  }

  ghost function DeadManifests(t: Tables): set<Digest> {
    set d | d in t.manifests && !Referenced(t, d)
  }

  ghost function LiveChunks(t: Tables): set<Digest> {
    set d, i | d in t.manifests && Referenced(t, d) && 0 <= i < |t.manifests[d].chunks| :: t.manifests[d].chunks[i]
  }

  // ---------------------------------------------------------------- the steps

  function Keep(written: map<Digest, Bytes>, ids: set<Digest>): map<Digest, Bytes> {
    map d | d in written && d in ids :: written[d]
  }

  /** A torn checkpoint makes recovery replay the whole log; this is when that is harmless. */
  ghost predicate TornCheckpointIsHarmless(s: State) {
    InForce(s.tables, s.log) && LogChunksIn(s.log, s.durable)
  }

  function WritingStep(s: State): State
    requires s.pc.Writing?
  {
    var Writing(current, job, k) := s.pc;
    if k < |job.parts| then
      var id := Digest(job.parts[k]);
      s.(written := if id in s.written then s.written else s.written[id := job.parts[k]],
         pc := Writing(current, job, k + 1))
    else
      s.(durable := s.written.Keys, pc := Synced(current, job))
  }

  /** Choose object and version, then append the WAL record and fsync it: the commit point. */
  function CommitStep(s: State): State
    requires s.pc.Synced?
  {
    var Synced(current, job) := s.pc;
    if NameResolves(s.tables, job.name) then
      var r := RecordFor(s.tables, job, current + 1);
      s.(log := s.log + [r],
         pc := Applying(current + 1, [r], 0, 0, current + 1, false),
         spec := Apply(s.spec, r),
         h := Committed(s.h, r))
    else s.(pc := Idle(current))
  }

  function ApplyStep(s: State): State
    requires s.pc.Applying?
  {
    var Applying(current, recs, k, stage, lsn, replay) := s.pc;
    if k >= |recs| then s.(pc := Checkpoint(current, lsn, 0))
    else if replay && stage == 0 && !ChunksIn(recs[k].manifest, s.written.Keys) then s.(pc := Failed)
    else
      s.(tables := Stage(s.tables, recs[k], stage),
         durable := if replay && stage == 0 then s.written.Keys else s.durable,
         pc := if stage < 2 then s.pc.(stage := stage + 1) else s.pc.(k := k + 1, stage := 0))
  }

  function CheckpointStep(s: State): State
    requires s.pc.Checkpoint?
  {
    var Checkpoint(current, lsn, phase) := s.pc;
    if phase == 0 then s.(ckpt := 0, pc := Checkpoint(current, lsn, 1))
    else if phase == 1 then s.(ckpt := lsn, pc := Checkpoint(current, lsn, 2))
    else s.(log := if lsn >= current then [] else s.log, pc := Idle(current))
  }

  function CompactStep(s: State): State
    requires s.pc.Sweeping?
  {
    if s.pc.dead != {} then s
    else
      var kept := Keep(s.written, s.pc.live);
      s.(written := kept, durable := kept.Keys, pc := Idle(s.pc.current))
  }

  function StepOf(s: State): State {
    match s.pc
    case Writing(_, _, _) => WritingStep(s)
    case Synced(_, _) => CommitStep(s)
    case Applying(_, _, _, _, _, _) => ApplyStep(s)
    case Checkpoint(_, _, _) => CheckpointStep(s)
    case Sweeping(_, _, _) => CompactStep(s)
    case _ => s
  }

  ghost function CrashOf(s: State, keep: set<Digest>): State {
    s.(written := Keep(s.written, s.durable + keep),
       pc := Down,
       hazard := s.hazard || (s.pc.Checkpoint? && s.pc.phase == 1 && !TornCheckpointIsHarmless(s)))
  }

  function OpenOf(s: State): State {
    var pending := Pending(s.log, s.ckpt);
    var current := MaxLsn(s.log, s.ckpt);
    if pending == [] then s.(pc := Idle(current))
    else s.(pc := Applying(current, pending, 0, 0, MaxLsn(pending, s.ckpt), true))
  }

  function SnapshotOf(s: State, tag: Label): State {
    var t := Snapshot(s.tables, tag);
    s.(tables := t,
       spec := Snapshot(s.spec, tag),
       shots := if t == s.tables then s.shots else s.shots[tag := Restore(t, s.written, Capture(s.tables))])
  }

  ghost function IdleOp(s: State, ev: Event): State
    requires s.pc.Idle?
  {
    match ev
    case Put(job) => if job.newId in s.h.used then s else s.(pc := Writing(s.pc.current, job, 0))
    case RollbackFile(name, number, now) =>
      s.(tables := Rollback(s.tables, name, number, now),
         spec := Rollback(s.spec, name, number, now),
         h := RolledBack(s.spec, s.h, name, number))
    case PruneVersions(name, keep) => s.(tables := Prune(s.tables, name, keep), spec := Prune(s.spec, name, keep))
    case RenameFile(name, to) => s.(tables := Rename(s.tables, name, to), spec := Rename(s.spec, name, to))
    case UnbindFile(name) => s.(tables := Unbind(s.tables, name), spec := Unbind(s.spec, name))
    case DeleteFile(name) => s.(tables := Delete(s.tables, name), spec := Delete(s.spec, name))
    case CreateSnapshot(tag) => SnapshotOf(s, tag)
    case DeleteSnapshot(tag) =>
      s.(tables := DropSnapshot(s.tables, tag), spec := DropSnapshot(s.spec, tag), shots := s.shots - {tag})
    case StartGc =>
      if MarkSucceeds(s.tables) then
        s.(pc := Sweeping(s.pc.current, DeadManifests(s.tables), LiveChunks(s.tables)))
      else s
    case _ => s
  }

  function SweepOf(s: State, d: Digest): State
    requires s.pc.Sweeping?
  {
    if d !in s.pc.dead then s
    else
      s.(tables := s.tables.(manifests := s.tables.manifests - {d}),
         spec := s.spec.(manifests := s.spec.manifests - {d}),
         pc := s.pc.(dead := s.pc.dead - {d}))
  }

  /** One event; events that do not fit the current point of execution do nothing. */
  ghost function Next(s: State, ev: Event): State {
    match ev
    case Step => StepOf(s)
    case Crash(keep) => CrashOf(s, keep)
    case Open => if s.pc.Down? || s.pc.Failed? then OpenOf(s) else s
    case SweepManifest(d) => if s.pc.Sweeping? then SweepOf(s, d) else s
    case _ => if s.pc.Idle? then IdleOp(s, ev) else s
  }

  ghost function Run(s: State, events: seq<Event>): State {
    if events == [] then s else Next(Run(s, events[..|events| - 1]), events[|events| - 1])
  }
}
