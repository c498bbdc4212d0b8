/** Every interleaving of threads under the engine's locks is a run of the sequential engine; what
    that gives concurrent puts, readers, snapshots and collections; and that no schedule deadlocks. */
module LockSafety {
  import opened Basics
  import opened Catalog
  import opened Versions
  import opened Engine
  import opened EngineSafety
  import opened EngineAtomicity
  import opened Locks

  // ---------------------------------------------------------------- who holds what

  predicate HoldsPut(th: Thread) { NeedsPut(th.op) && !th.pc.Start? && !Over(th.pc) }
  predicate HoldsGc(th: Thread) { th.op.Collect? && !th.pc.Start? && !Over(th.pc) }
  predicate Shares(th: Thread) { !Exclusive(th.op) && Inside(th.pc) }
  predicate Excludes(th: Thread) { Exclusive(th.op) && Inside(th.pc) }

  predicate Agrees(w: World, t: nat)
    requires t < |w.threads|
  {
    var th := w.threads[t];
    && (HoldsPut(th) <==> w.putLock == Some(t)) && (HoldsGc(th) <==> w.gcLock == Some(t))
    && (Shares(th) <==> t in w.readers) && (Excludes(th) <==> w.writer == Some(t))
  }

  predicate Owner(w: World, l: Option<nat>) {
    l.Some? ==> l.value < |w.threads|
  }

  ghost predicate LocksOk(w: World) {
    && (forall t :: 0 <= t < |w.threads| ==> Agrees(w, t))
    && Owner(w, w.putLock) && Owner(w, w.gcLock) && Owner(w, w.writer)
    && (forall t :: t in w.readers ==> t < |w.threads|)
    && (w.writer.Some? ==> w.readers == {})
  }

  predicate SameLocks(a: World, b: World) {
    && a.threads == b.threads && a.putLock == b.putLock && a.gcLock == b.gcLock
    && a.readers == b.readers && a.writer == b.writer
  }

  /** The thread inside a changing operation: the exclusive holder of `op_lock`, or the holder of
      `put_lock` once it shares `op_lock`. */
  function Active(w: World): Option<nat> {
    if w.writer.Some? then w.writer
    else if w.putLock.Some? && w.putLock.value in w.readers then w.putLock
    else None
  }

  /** Two threads are never inside changing operations at once. */
  lemma InsideIsActive(w: World, t: nat)
    requires LocksOk(w) && t < |w.threads| && Inside(w.threads[t].pc) && !w.threads[t].op.ReadFile?
    ensures Active(w) == Some(t)
  {
    assert Agrees(w, t);
  }

  lemma AtKeepsLocks(w: World, t: nat, pc: Point)
    requires LocksOk(w) && t < |w.threads| && Inside(w.threads[t].pc) && Inside(pc)
    ensures LocksOk(At(w, t, pc))
  {
    var m := At(w, t, pc);
    forall u | 0 <= u < |m.threads| ensures Agrees(m, u) { assert Agrees(w, u); }
  }

  lemma LeaveKeepsLocks(w: World, t: nat, pc: Point)
    requires LocksOk(w) && t < |w.threads| && Inside(w.threads[t].pc) && Over(pc)
    ensures LocksOk(Leave(w, t, pc))
  {
    var m := Leave(w, t, pc);
    assert Agrees(w, t);
    forall u | 0 <= u < |m.threads| ensures Agrees(m, u) { assert Agrees(w, u); }
  }

  lemma FirstLockKeepsLocks(w: World, t: nat)
    requires LocksOk(w) && t < |w.threads| && w.threads[t].pc.Start?
    ensures LocksOk(FirstLock(w, t)) && Active(FirstLock(w, t)) == Active(w)
  {
    var m := FirstLock(w, t);
    assert Agrees(w, t);
    forall u | 0 <= u < |m.threads| ensures Agrees(m, u) { assert Agrees(w, u); }
  }

  lemma OpLockKeepsLocks(w: World, t: nat)
    requires LocksOk(w) && t < |w.threads| && w.threads[t].pc.Queued?
    ensures var m := OpLock(w, t);
            && LocksOk(m)
            && (Active(m) == Active(w) || (Active(w) == None && Active(m) == Some(t) && m.threads[t].pc.Entered?))
  {
    var m := OpLock(w, t);
    assert Agrees(w, t);
    forall u | 0 <= u < |m.threads| ensures Agrees(m, u) { assert Agrees(w, u); }
  }

  lemma MoveKeepsLocks(w: World, t: nat, pick: Digest)
    requires LocksOk(w) && t < |w.threads| && w.shared.pc.Idle?
    ensures LocksOk(Move(w, t, pick))
  {
    hide LocksOk, OpLock, FirstLock, Act, At, Leave;
    var th := w.threads[t];
    if Inside(th.pc) {
      var o := Act(w.shared, th, pick);
      if Over(o.pc) {
        LeaveKeepsLocks(w, t, o.pc);
        PlacedLocks(w, t, o);
        SameLocksOk(Move(w, t, pick), Leave(w, t, o.pc));
      } else {
        AtKeepsLocks(w, t, o.pc);
        PlacedLocks(w, t, o);
        SameLocksOk(Move(w, t, pick), At(w, t, o.pc));
      }
    } else if th.pc.Start? {
      FirstLockKeepsLocks(w, t);
    } else if th.pc.Queued? {
      OpLockKeepsLocks(w, t);
    }
  }

  lemma PlacedLocks(w: World, t: nat, o: Outcome)
    requires t < |w.threads|
    ensures SameLocks(Place(w, t, o), if Over(o.pc) then Leave(w, t, o.pc) else At(w, t, o.pc))
    ensures Place(w, t, o).shared == o.shared
  {
  }

  lemma SameLocksOk(a: World, b: World)
    requires SameLocks(a, b) && LocksOk(b)
    ensures LocksOk(a)
  {
    forall u | 0 <= u < |a.threads| ensures Agrees(a, u) { assert Agrees(b, u); }
  }

  // ---------------------------------------------------------------- what a thread has read is current

  predicate Fits(op: Op, pc: Point) {
    match pc
    case Storing(job, k) => op == PutFile(job) && k <= |job.parts|
    case Missing(job, k) => op == PutFile(job) && k < |job.parts|
    case Flushed(job) => op == PutFile(job)
    case Chosen(job, r) => op == PutFile(job) && r.name == job.name
    case Logged(r, stage) => op.PutFile? && stage <= 3 && r.name == op.job.name
    case Updating(r, _) => op.PutFile? && r.name == op.job.name
    case Closing(r, phase) => op.PutFile? && phase <= 2 && r.name == op.job.name
    case Fetched(_, _) => op.PruneFile? || op.RollBackFile?
    case Listed(_) => op.TakeSnapshot?
    case Marked(_, _) => op.Collect?
    case Reading(chunks, k) => op.ReadFile? && k <= |chunks|
    case _ => true
  }

  ghost predicate Current(s: State, th: Thread) {
    Fits(th.op, th.pc) &&
    match th.pc
    case Chosen(job, r) => NameResolves(s.tables, job.name) && r == RecordFor(s.tables, job, 0)
    case Updating(r, record) => record == RecordOr(s.tables.objects, r)
    case Fetched(id, record) =>
      th.op.name in s.tables.names && s.tables.names[th.op.name] == id && id in s.tables.objects &&
          s.tables.objects[id] == record
    case Listed(entries) => th.op.tag != "" && th.op.tag !in s.tables.snapshots && entries == Capture(s.tables)
    case Reading(chunks, _) => forall i :: 0 <= i < |chunks| ==> chunks[i] in s.written
    case ChunkLost => false
    case _ => true
  }

  /** What the point of execution is in the sequential engine's terms. */
  function EnginePc(pc: Point, lsn: nat): Engine.Pc {
    match pc
    case Storing(job, k) => Writing(lsn, job, k)
    case Missing(job, k) => Writing(lsn, job, k)
    case Flushed(job) => Synced(lsn, job)
    case Chosen(job, _) => Synced(lsn, job)
    case Logged(r, stage) =>
      if stage < 3 then Applying(lsn, [r], 0, stage, r.lsn, false) else Applying(lsn, [r], 1, 0, r.lsn, false)
    case Updating(r, _) => Applying(lsn, [r], 0, 1, r.lsn, false)
    case Closing(r, phase) => Checkpoint(lsn, r.lsn, phase)
    case Marked(dead, live) => Sweeping(lsn, dead, live)
    case _ => Idle(lsn)
  }

  ghost function Sequential(w: World): State
    requires LocksOk(w) && w.shared.pc.Idle?
  {
    var lsn := w.shared.pc.current;
    w.shared.(pc := if Active(w).None? then Idle(lsn) else EnginePc(w.threads[Active(w).value].pc, lsn))
  }

  /** The sequential event a step is, if any. */
  ghost function EventOf(s: State, th: Thread, pick: Digest): Option<Event> {
    match th.pc
    case Entered =>
      if th.op.PutFile? then if th.op.job.newId in s.h.used then None else Some(Put(th.op.job))
      else if th.op.Collect? then if MarkSucceeds(s.tables) then Some(StartGc) else None
      else if th.op.MoveFile? || th.op.RemoveFile? || th.op.UnbindName? || th.op.DropSnapshotOf?
          then Some(EventFor(th.op))
      else None
    case Storing(job, k) => if k < |job.parts| && Digest(job.parts[k]) !in s.written then None else Some(Step)
    case Missing(_, _) => Some(Step)
    case Flushed(job) => if NameResolves(s.tables, job.name) then None else Some(Step)
    case Chosen(_, _) => Some(Step)
    case Logged(_, stage) => if stage == 1 then None else Some(Step)
    case Updating(_, _) => Some(Step)
    case Closing(_, _) => Some(Step)
    case Fetched(_, _) => Some(EventFor(th.op))
    case Listed(_) => Some(EventFor(th.op))
    case Marked(dead, _) => if pick in dead then Some(SweepManifest(pick)) else if dead == {} then Some(Step) else None
    case _ => None
  }

  ghost function Follow(s: State, ev: Option<Event>): State {
    if ev.None? then s else Next(s, ev.value)
  }

  /** The shared state as the sequential engine at this thread's point. */
  function View(s: State, pc: Point): State
    requires s.pc.Idle?
  {
    s.(pc := EnginePc(pc, s.pc.current))
  }

  ghost predicate Refines(s: State, th: Thread, pick: Digest)
    requires s.pc.Idle? && Inside(th.pc)
  {
    var o := Act(s, th, pick);
    View(o.shared, o.pc) == Follow(View(s, th.pc), EventOf(s, th, pick))
  }

  lemma EnterStep(s: State, th: Thread, pick: Digest)
    requires s.pc.Idle? && th.pc.Entered? && !th.op.ReadFile? && Current(s, th)
    ensures Refines(s, th, pick)
  {
    hide Capture, MarkSucceeds, DeadManifests, LiveChunks, Rename, Unbind, Delete, DropSnapshot;
    hide CrashOf, OpenOf, SweepOf, WritingStep, CommitStep, ApplyStep, CheckpointStep, CompactStep;
    hide Store, Save, LookUp, AppendChunk, AppendRecord, ApplyRecord, Update, Close, Sweep, ReadOne;
    hide Rollback, RolledBack, Prune, SnapshotOf;
  }

  lemma ChunkStep(s: State, th: Thread, pick: Digest)
    requires s.pc.Idle? && (th.pc.Storing? || th.pc.Missing?) && Current(s, th)
    ensures Refines(s, th, pick)
  {
    hide Keep;
  }

  lemma ChoosingStep(s: State, th: Thread, pick: Digest)
    requires s.pc.Idle? && (th.pc.Flushed? || th.pc.Chosen?) && Current(s, th)
    ensures Refines(s, th, pick)
  {
    hide Apply, Committed;
  }

  lemma LoggedStep(s: State, th: Thread, pick: Digest)
    requires s.pc.Idle? && th.pc.Logged? && Current(s, th)
    ensures Refines(s, th, pick)
  {
    hide Stage, RecordOr, IdleOp, CrashOf, OpenOf, SweepOf, WritingStep, CommitStep, CheckpointStep, CompactStep,
         ChunksIn;
    hide Enter, Store, Save, LookUp, AppendChunk, AppendRecord, Update, Close, Sweep, ReadOne;
  }

  lemma UpdatingStep(s: State, th: Thread, pick: Digest)
    requires s.pc.Idle? && th.pc.Updating? && Current(s, th)
    ensures Refines(s, th, pick)
  {
    hide HasNumber;
  }

  lemma ClosingStep(s: State, th: Thread, pick: Digest)
    requires s.pc.Idle? && th.pc.Closing? && Current(s, th)
    ensures Refines(s, th, pick)
  {
    hide Keep;
  }

  lemma PruneStep(s: State, th: Thread, pick: Digest)
    requires s.pc.Idle? && th.pc.Fetched? && th.op.PruneFile? && Current(s, th)
    requires s.tables == s.spec
    ensures Refines(s, th, pick)
  {
  }

  lemma RollbackStep(s: State, th: Thread, pick: Digest)
    requires s.pc.Idle? && th.pc.Fetched? && th.op.RollBackFile? && Current(s, th)
    requires s.tables == s.spec
    ensures Refines(s, th, pick)
  {
    hide FindVersion, NextNumber;
  }

  lemma ListedStep(s: State, th: Thread, pick: Digest)
    requires s.pc.Idle? && th.pc.Listed? && Current(s, th)
    ensures Refines(s, th, pick)
  {
    hide Restore, CrashOf, OpenOf, SweepOf, WritingStep, CommitStep, ApplyStep, CheckpointStep, CompactStep;
    hide Enter, Store, LookUp, AppendChunk, AppendRecord, ApplyRecord, Update, Close, Sweep, ReadOne;
    hide Rollback, RolledBack, Prune, Rename, Unbind, Delete, DropSnapshot, MarkSucceeds, Capture;
  }

  lemma MarkedStep(s: State, th: Thread, pick: Digest)
    requires s.pc.Idle? && th.pc.Marked? && Current(s, th)
    ensures Refines(s, th, pick)
  {
    hide Keep;
  }

  /** One step of the thread inside is a step of the sequential engine at the same point, or none. */
  lemma InsideStep(s: State, th: Thread, pick: Digest)
    requires s.pc.Idle? && Inside(th.pc) && !th.op.ReadFile? && Current(s, th)
    requires EnginePc(th.pc, 0).Idle? ==> s.tables == s.spec
    ensures Refines(s, th, pick)
  {
    hide Refines;
    match th.pc
    case Entered => EnterStep(s, th, pick);
    case Storing(_, _) => ChunkStep(s, th, pick);
    case Missing(_, _) => ChunkStep(s, th, pick);
    case Flushed(_) => ChoosingStep(s, th, pick);
    case Chosen(_, _) => ChoosingStep(s, th, pick);
    case Logged(_, _) => LoggedStep(s, th, pick);
    case Updating(_, _) => UpdatingStep(s, th, pick);
    case Closing(_, _) => ClosingStep(s, th, pick);
    case Fetched(_, _) => if th.op.PruneFile? { PruneStep(s, th, pick); } else { RollbackStep(s, th, pick); }
    case Listed(_) => ListedStep(s, th, pick);
    case Marked(_, _) => MarkedStep(s, th, pick);
    case _ =>
  }

  // ---------------------------------------------------------------- the world moves as the engine does

  ghost function TurnEvent(w: World, t: nat, pick: Digest): Option<Event>
    requires t < |w.threads|
  {
    var th := w.threads[t];
    if Inside(th.pc) && !th.op.ReadFile? then EventOf(w.shared, th, pick) else None
  }

  ghost predicate AllCurrent(w: World) {
    forall t :: 0 <= t < |w.threads| ==> Current(w.shared, w.threads[t])
  }

  ghost predicate Inv(w: World) {
    w.shared.pc.Idle? && LocksOk(w) && AllCurrent(w) && Sound(Sequential(w)) && Exact(Sequential(w))
  }

  lemma PlacedActive(w: World, t: nat, o: Outcome)
    requires LocksOk(w) && t < |w.threads| && Inside(w.threads[t].pc) && (Inside(o.pc) || Over(o.pc))
    ensures var m := Place(w, t, o);
            if w.threads[t].op.ReadFile? then Active(m) == Active(w) && Active(w) != Some(t)
            else Active(w) == Some(t) && Active(m) == if Over(o.pc) then None else Some(t)
  {
    assert Agrees(w, t);
    PlacedLocks(w, t, o);
    if w.putLock.Some? { assert Agrees(w, w.putLock.value); }
  }

  /** Outside a changing operation a move leaves the engine where it is. */
  lemma OutsideMove(w: World, t: nat, pick: Digest)
    requires LocksOk(w) && w.shared.pc.Idle? && t < |w.threads|
    requires !Inside(w.threads[t].pc) || w.threads[t].op.ReadFile?
    requires Current(w.shared, w.threads[t])
    ensures var m := Move(w, t, pick);
            && m.shared == w.shared && LocksOk(m) && Sequential(m) == Sequential(w)
            && m.threads[t].op == w.threads[t].op && forall u :: 0 <= u < |w.threads| && u != t ==>
                m.threads[u] == w.threads[u]
  {
    hide LocksOk, EnginePc, Act, Current, Active, FirstLock, OpLock, Place;
    MoveKeepsLocks(w, t, pick);
    NotActive(w, t);
    var th, m := w.threads[t], Move(w, t, pick);
    if th.pc.Start? {
      FirstLockKeepsLocks(w, t);
      LockingMovesOne(w, t);
      SameEngine(w, m, t);
    } else if th.pc.Queued? {
      OpLockKeepsLocks(w, t);
      LockingMovesOne(w, t);
      SameEngine(w, m, t);
    } else if Inside(th.pc) {
      ReadingChangesNothing(w.shared, th, pick);
      PlacedActive(w, t, Act(w.shared, th, pick));
      PlacedMovesOne(w, t, Act(w.shared, th, pick));
      SameEngine(w, m, t);
    }
  }

  ghost predicate MovesOne(w: World, m: World, t: nat)
    requires t < |w.threads|
  {
    && |m.threads| == |w.threads| && m.threads[t].op == w.threads[t].op
    && forall u :: 0 <= u < |w.threads| && u != t ==> m.threads[u] == w.threads[u]
  }

  lemma LockingMovesOne(w: World, t: nat)
    requires t < |w.threads|
    ensures MovesOne(w, FirstLock(w, t), t) && FirstLock(w, t).shared == w.shared
    ensures MovesOne(w, OpLock(w, t), t) && OpLock(w, t).shared == w.shared
  {
  }

  lemma PlacedMovesOne(w: World, t: nat, o: Outcome)
    requires t < |w.threads|
    ensures MovesOne(w, Place(w, t, o), t) && Place(w, t, o).shared == o.shared
  {
  }

  /** With the same thread inside, or one that has just entered, the engine is where it was. */
  lemma SameEngine(w: World, m: World, t: nat)
    requires LocksOk(w) && LocksOk(m) && w.shared.pc.Idle? && m.shared == w.shared
    requires t < |w.threads| && MovesOne(w, m, t)
    requires Active(w) != Some(t) && (Active(w).Some? ==> Active(w).value < |w.threads|)
    requires Active(m) == Active(w) || (Active(w) == None && Active(m) == Some(t) && m.threads[t].pc.Entered?)
    ensures Sequential(m) == Sequential(w)
  {
    hide LocksOk, Active;
  }

  lemma ReadingChangesNothing(s: State, th: Thread, pick: Digest)
    requires s.pc.Idle? && Inside(th.pc) && th.op.ReadFile? && Current(s, th)
    ensures Act(s, th, pick).shared == s
  {
  }

  lemma NotActive(w: World, t: nat)
    requires LocksOk(w) && t < |w.threads| && (!Inside(w.threads[t].pc) || w.threads[t].op.ReadFile?)
    ensures Active(w) != Some(t)
    ensures Active(w).Some? ==> Active(w).value < |w.threads|
  {
    assert Agrees(w, t);
  }

  /** A move of the thread inside is the sequential engine's step. */
  lemma ActiveMove(w: World, t: nat, pick: Digest)
    requires LocksOk(w) && w.shared.pc.Idle? && t < |w.threads|
    requires Inside(w.threads[t].pc) && !w.threads[t].op.ReadFile? && Current(w.shared, w.threads[t])
    requires Exact(Sequential(w))
    ensures var m := Move(w, t, pick);
            LocksOk(m) && Sequential(m) == Follow(Sequential(w), EventOf(w.shared, w.threads[t], pick))
  {
    hide LocksOk, EnginePc, Act, EventOf, Follow, Current, WellFormed;
    MoveKeepsLocks(w, t, pick);
    var th := w.threads[t];
    var o := Act(w.shared, th, pick);
    PlacedActive(w, t, o);
    assert Sequential(w) == View(w.shared, th.pc);
    QuietWhenIdle(w.shared, th.pc);
    InsideStep(w.shared, th, pick);
    OverIsIdle(o.pc, o.shared.pc.current);
  }

  lemma OverIsIdle(pc: Point, lsn: nat)
    ensures Over(pc) ==> EnginePc(pc, lsn) == Idle(lsn)
  {
  }

  lemma QuietWhenIdle(s: State, pc: Point)
    requires s.pc.Idle? && Exact(View(s, pc))
    ensures EnginePc(pc, 0).Idle? ==> s.tables == s.spec
  {
    hide WellFormed;
  }
}
