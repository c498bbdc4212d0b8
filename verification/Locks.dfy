/** The engine under threads: every operation takes `put_lock`, `gc_lock` and `op_lock` as the source
    does, and works in small steps on what it read into its own variables. */
module Locks {
  import opened Basics
  import opened Catalog
  import opened Versions
  import opened Engine

  datatype Op =
    | PutFile(job: Job)                          // put_lock, then op_lock shared
    | PruneFile(name: Name, keep: nat)
    | RollBackFile(name: Name, number: nat, now: nat)
    | MoveFile(name: Name, to: Name)
    | ReadFile(name: Name)                       // op_lock shared
    | TakeSnapshot(tag: Label)                   // op_lock exclusive
    | RemoveFile(name: Name)
    | UnbindName(name: Name)
    | DropSnapshotOf(tag: Label)
    | Collect                                    // gc_lock, then op_lock exclusive

  /** How far a thread got, with what it has read so far. */
  datatype Point =
    | Start
    | Queued                                     // first lock held if there is one, waiting for op_lock
    | Entered                                    // all locks held
    | Storing(job: Job, k: nat)                  // k chunks found or appended
    | Missing(job: Job, k: nat)                  // chunk k was not in the index
    | Flushed(job: Job)                          // segments synced
    | Chosen(job: Job, r: PutRec)                // object and version decided
    | Logged(r: PutRec, stage: nat)              // WAL record durable; stage metadata steps done
    | Updating(r: PutRec, record: Record)        // object record read
    | Closing(r: PutRec, phase: nat)             // checkpointing
    | Fetched(id: ObjectId, record: Record)      // prune and rollback: object record read
    | Listed(entries: map<Name, Entry>)          // snapshot: names listed
    | Marked(dead: set<Digest>, live: set<Digest>)
    | Reading(chunks: seq<Digest>, k: nat)       // k chunks of the manifest read
    | Finished
    | Refused                                    // an error the caller asked for
    | ChunkLost                                  // ChunkNotFound while reading

  datatype Thread = Thread(op: Op, pc: Point)

  /** `shared` is the store; its own program counter stays `Idle` and only carries the WAL's last
      sequence number, since control is in the threads. `issued` logs version numbers by name. */
  datatype World = World(
    shared: State,
    threads: seq<Thread>,
    putLock: Option<nat>,
    gcLock: Option<nat>,
    readers: set<nat>,
    writer: Option<nat>,
    issued: map<Name, seq<nat>>)

  predicate NeedsPut(op: Op) {
    op.PutFile? || op.PruneFile? || op.RollBackFile? || op.MoveFile?
  }

  predicate Exclusive(op: Op) {
    op.TakeSnapshot? || op.RemoveFile? || op.UnbindName? || op.DropSnapshotOf? || op.Collect?
  }

  predicate Over(pc: Point) {
    pc.Finished? || pc.Refused? || pc.ChunkLost?
  }

  predicate Inside(pc: Point) {
    !pc.Start? && !pc.Queued? && !Over(pc)
  }

  // ---------------------------------------------------------------- inside an operation

  /** What a step makes of the shared state, and where it leaves the thread. */
  datatype Outcome = Outcome(shared: State, pc: Point)

  /** The event of the sequential engine that an operation without chunks of its own is. */
  function EventFor(op: Op): Event {
    match op
    case MoveFile(name, to) => RenameFile(name, to)
    case RemoveFile(name) => DeleteFile(name)
    case UnbindName(name) => UnbindFile(name)
    case DropSnapshotOf(tag) => DeleteSnapshot(tag)
    case PruneFile(name, keep) => PruneVersions(name, keep)
    case RollBackFile(name, number, now) => RollbackFile(name, number, now)
    case TakeSnapshot(tag) => CreateSnapshot(tag)
    case _ => Step
  }

  /** The first step with all locks held: one transaction, or a first read. */
  ghost function Enter(s: State, op: Op): Outcome
    requires s.pc.Idle?
  {
    match op
    case PutFile(job) => Outcome(s, if job.newId in s.h.used then Refused else Storing(job, 0))
    case ReadFile(name) =>
      if Versions.Captured(s.tables, name) && LatestEntry(s.tables, name).manifest in s.tables.manifests then
        Outcome(s, Reading(s.tables.manifests[LatestEntry(s.tables, name).manifest].chunks, 0))
      else Outcome(s, Refused)
    case TakeSnapshot(tag) =>
      Outcome(s, if tag == "" || tag in s.tables.snapshots then Refused else Listed(Capture(s.tables)))
    case Collect =>
      Outcome(s, if MarkSucceeds(s.tables) then Marked(DeadManifests(s.tables), LiveChunks(s.tables)) else Refused)
    case PruneFile(_, _) => Outcome(s, Fetch(s.tables, op.name))
    case RollBackFile(_, _, _) => Outcome(s, Fetch(s.tables, op.name))
    case _ => Outcome(IdleOp(s, EventFor(op)), Finished)
  }

  function Fetch(tables: Tables, name: Name): Point {
    if name in tables.names && tables.names[name] in tables.objects then
      Fetched(tables.names[name], tables.objects[tables.names[name]])
    else Refused
  }

  function StorePruned(s: State, id: ObjectId, record: Record, name: Name, keep: nat): Outcome {
    if |record.versions| <= keep then Outcome(s, Finished)
    else
      var pruned := record.(versions := record.versions[|record.versions| - keep..]);
      Outcome(s.(tables := s.tables.(objects := s.tables.objects[id := pruned]),
                 spec := Prune(s.spec, name, keep)), Finished)
  }

  ghost function StoreRolledBack(s: State, id: ObjectId, record: Record, name: Name, number: nat, now: nat): Outcome {
    var i := FindVersion(record.versions, number);
    if i == -1 || record.versions[i].manifest !in s.tables.manifests then Outcome(s, Refused)
    else
      var next := NextNumber(record);
      var v := Version(next, record.versions[i].manifest, record.versions[i].size, now);
      Outcome(s.(tables := s.tables.(objects := s.tables.objects[id := Record(next, record.versions + [v])]),
                 spec := Rollback(s.spec, name, number, now),
                 h := RolledBack(s.spec, s.h, name, number)), Finished)
  }

  /** Write back the record that was read, changed. */
  ghost function Store(s: State, op: Op, id: ObjectId, record: Record): Outcome {
    match op
    case PruneFile(name, keep) => StorePruned(s, id, record, name, keep)
    case RollBackFile(name, number, now) => StoreRolledBack(s, id, record, name, number, now)
    case _ => Outcome(s, Refused)
  }

  function Save(s: State, tag: Label, entries: map<Name, Entry>): Outcome {
    var tables := s.tables.(snapshots := s.tables.snapshots[tag := entries]);
    Outcome(s.(tables := tables, spec := Snapshot(s.spec, tag),
               shots := s.shots[tag := Restore(tables, s.written, entries)]), Finished)
  }

  /** `put_chunk`: the first look at the index decides; the append looks again. */
  function LookUp(s: State, job: Job, k: nat): Outcome {
    if k >= |job.parts| then Outcome(s.(durable := s.written.Keys), Flushed(job))
    else Outcome(s, if Digest(job.parts[k]) in s.written then Storing(job, k + 1) else Missing(job, k))
  }

  function AppendChunk(s: State, job: Job, k: nat): Outcome {
    if k >= |job.parts| then Outcome(s, Refused)
    else
      var id := Digest(job.parts[k]);
      Outcome(s.(written := if id in s.written then s.written else s.written[id := job.parts[k]]), Storing(job, k + 1))
  }

  /** Append and fsync the WAL record decided on; the log numbers it. */
  function AppendRecord(s: State, chosen: PutRec): Outcome
    requires s.pc.Idle?
  {
    var r := chosen.(lsn := s.pc.current + 1);
    Outcome(s.(log := s.log + [r], pc := Idle(s.pc.current + 1),
               spec := Apply(s.spec, r), h := Committed(s.h, r)), Logged(r, 0))
  }

  function ApplyRecord(s: State, r: PutRec, stage: nat): Outcome {
    if stage == 1 then Outcome(s, Updating(r, RecordOr(s.tables.objects, r)))
    else if stage < 3 then Outcome(s.(tables := Stage(s.tables, r, stage)), Logged(r, stage + 1))
    else Outcome(s, Closing(r, 0))
  }

  function Update(s: State, r: PutRec, record: Record): Outcome {
    var objects := if HasNumber(record.versions, r.number) then s.tables.objects
                   else s.tables.objects[r.id := Record(r.number, record.versions + [VersionOf(r)])];
    Outcome(s.(tables := s.tables.(objects := objects)), Logged(r, 2))
  }

  function Close(s: State, r: PutRec, phase: nat): Outcome
    requires s.pc.Idle?
  {
    if phase == 0 then Outcome(s.(ckpt := 0), Closing(r, 1))
    else if phase == 1 then Outcome(s.(ckpt := r.lsn), Closing(r, 2))
    else Outcome(s.(log := if r.lsn >= s.pc.current then [] else s.log), Finished)
  }

  /** Delete one dead manifest, or, when none is left, compact the segments. */
  function Sweep(s: State, dead: set<Digest>, live: set<Digest>, pick: Digest): Outcome {
    if pick in dead then
      Outcome(s.(tables := s.tables.(manifests := s.tables.manifests - {pick}),
                 spec := s.spec.(manifests := s.spec.manifests - {pick})), Marked(dead - {pick}, live))
    else if dead == {} then
      var kept := Keep(s.written, live);
      Outcome(s.(written := kept, durable := kept.Keys), Finished)
    else Outcome(s, Marked(dead, live))
  }

  /** Read one chunk of a manifest. */
  function ReadOne(s: State, chunks: seq<Digest>, k: nat): Outcome {
    Outcome(s, if k >= |chunks| then Finished else if chunks[k] in s.written then Reading(chunks, k + 1) else ChunkLost)
  }

  /** One step of a thread that holds its locks. */
  ghost function Act(s: State, th: Thread, pick: Digest): (o: Outcome)
    requires s.pc.Idle? && Inside(th.pc)
    ensures o.shared.pc.Idle? && (Inside(o.pc) || Over(o.pc))
  {
    hide Stage, Apply, Committed, Keep, Capture, Restore, RolledBack, Rollback, Prune, Snapshot, MarkSucceeds,
         FindVersion;
    match th.pc
    case Entered => Enter(s, th.op)
    case Storing(job, k) => LookUp(s, job, k)
    case Missing(job, k) => AppendChunk(s, job, k)
    case Flushed(job) =>
      Outcome(s, if NameResolves(s.tables, job.name) then Chosen(job, RecordFor(s.tables, job, 0)) else Refused)
    case Chosen(_, r) => AppendRecord(s, r)
    case Logged(r, stage) => ApplyRecord(s, r, stage)
    case Updating(r, record) => Update(s, r, record)
    case Closing(r, phase) => Close(s, r, phase)
    case Fetched(id, record) => Store(s, th.op, id, record)
    case Listed(entries) => if th.op.TakeSnapshot? then Save(s, th.op.tag, entries) else Outcome(s, Refused)
    case Marked(dead, live) => Sweep(s, dead, live, pick)
    case Reading(chunks, k) => ReadOne(s, chunks, k)
  }

  // ---------------------------------------------------------------- locks and schedules

  function At(w: World, t: nat, pc: Point): World
    requires t < |w.threads|
  {
    w.(threads := w.threads[t := Thread(w.threads[t].op, pc)])
  }

  /** All guards are dropped when the operation returns. */
  function Leave(w: World, t: nat, pc: Point): World
    requires t < |w.threads|
  {
    At(w, t, pc).(
      putLock := if w.putLock == Some(t) then None else w.putLock,
      gcLock := if w.gcLock == Some(t) then None else w.gcLock,
      readers := w.readers - {t},
      writer := if w.writer == Some(t) then None else w.writer)
  }

  function FirstLock(w: World, t: nat): World
    requires t < |w.threads|
  {
    var op := w.threads[t].op;
    if NeedsPut(op) then if w.putLock.None? then At(w, t, Queued).(putLock := Some(t)) else w
    else if op.Collect? then if w.gcLock.None? then At(w, t, Queued).(gcLock := Some(t)) else w
    else At(w, t, Queued)
  }

  function OpLock(w: World, t: nat): World
    requires t < |w.threads|
  {
    if w.writer.Some? then w
    else if !Exclusive(w.threads[t].op) then At(w, t, Entered).(readers := w.readers + {t})
    else if w.readers == {} then At(w, t, Entered).(writer := Some(t))
    else w
  }

  function Got(issued: map<Name, seq<nat>>, name: Name): seq<nat> {
    if name in issued then issued[name] else []
  }

  /** The version numbers handed out, by name; a number is out once its WAL record is durable. */
  function Issue(issued: map<Name, seq<nat>>, pc: Point): map<Name, seq<nat>> {
    if pc.Chosen? then issued[pc.r.name := Got(issued, pc.r.name) + [pc.r.number]] else issued
  }

  function Place(w: World, t: nat, o: Outcome): World
    requires t < |w.threads|
  {
    var done := w.(shared := o.shared, issued := Issue(w.issued, w.threads[t].pc));
    if Over(o.pc) then Leave(done, t, o.pc) else At(done, t, o.pc)
  }

  /** Thread `t` takes one step; a step that must wait changes nothing. */
  ghost function Move(w: World, t: nat, pick: Digest): (m: World)
    requires t < |w.threads| && w.shared.pc.Idle?
    ensures m.shared.pc.Idle? && |m.threads| == |w.threads|
  {
    hide Act;
    if w.threads[t].pc.Start? then FirstLock(w, t)
    else if w.threads[t].pc.Queued? then OpLock(w, t)
    else if Over(w.threads[t].pc) then w
    else Place(w, t, Act(w.shared, w.threads[t], pick))
  }

  datatype Turn = Turn(thread: nat, pick: Digest)

  /** Any schedule: turns of threads that do not exist are skipped. */
  ghost function Schedule(w: World, turns: seq<Turn>): (m: World)
    requires w.shared.pc.Idle?
    ensures m.shared.pc.Idle? && |m.threads| == |w.threads|
  {
    hide Move;
    if turns == [] then w else
    var before := Schedule(w, turns[..|turns| - 1]);
    var turn := turns[|turns| - 1];
    if turn.thread < |w.threads| then Move(before, turn.thread, turn.pick) else before
  }
}
