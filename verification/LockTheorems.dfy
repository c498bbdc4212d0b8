/** What the engine's locks guarantee over every schedule. */
module LockTheorems {
  import opened Basics
  import opened Catalog
  import opened Versions
  import opened Engine
  import opened EngineSafety
  import opened EngineAtomicity
  import opened Locks
  import opened LockSafety

  // ---------------------------------------------------------------- the invariant is kept

  /** Only a collection removes chunks from the store. */
  lemma ActKeepsChunks(s: State, th: Thread, pick: Digest)
    requires s.pc.Idle? && Inside(th.pc) && !th.pc.Marked?
    ensures s.written.Keys <= Act(s, th, pick).shared.written.Keys
  {
    hide Stage, Apply, Committed, Keep, Capture, Restore, RolledBack, Rollback, Prune, Snapshot, MarkSucceeds,
         FindVersion, RecordFor;
  }

  /** The chunks of a listed version are in the store. */
  lemma LatestIsStored(s: State, name: Name)
    requires Sound(s) && Versions.Captured(s.tables, name)
    ensures var d := LatestEntry(s.tables, name).manifest;
            d in s.tables.manifests && ChunksIn(s.tables.manifests[d], s.written.Keys)
  {
  }

  lemma ReadsWhatIsStored(s: State, th: Thread, pick: Digest, lsn: Engine.Pc)
    requires s.pc.Idle? && Inside(th.pc) && th.op.ReadFile? && Current(s, th) && Sound(s.(pc := lsn))
    ensures var o := Act(s, th, pick); o.shared == s && Current(s, Thread(th.op, o.pc))
  {
    hide Sound, LatestEntry;
    if th.pc.Entered? && Versions.Captured(s.tables, th.op.name) { LatestIsStored(s.(pc := lsn), th.op.name); }
  }

  lemma ActIsCurrent(s: State, th: Thread, pick: Digest)
    requires s.pc.Idle? && Inside(th.pc) && !th.op.ReadFile? && Current(s, th)
    ensures var o := Act(s, th, pick); Current(o.shared, Thread(th.op, o.pc))
  {
    hide Stage, Apply, Committed, Keep, Capture, Restore, RolledBack, Rollback, Prune, Snapshot, MarkSucceeds,
         FindVersion, RecordFor;
    match th.pc
    case Flushed(job) => if NameResolves(s.tables, job.name) { RecordForIds(s.tables, job, 0); }
    case _ =>
  }

  /** What other threads have read stays current: they are only readers, whose chunks stay. */
  lemma OthersStayCurrent(w: World, t: nat, u: nat, pick: Digest)
    requires LocksOk(w) && w.shared.pc.Idle? && t < |w.threads| && u < |w.threads| && u != t
    requires Inside(w.threads[t].pc) && !w.threads[t].op.ReadFile?
    requires Current(w.shared, w.threads[t]) && Current(w.shared, w.threads[u])
    ensures Current(Act(w.shared, w.threads[t], pick).shared, w.threads[u])
  {
    hide Act;
    var th, other := w.threads[t], w.threads[u];
    InsideIsActive(w, t);
    assert Agrees(w, t) && Agrees(w, u);
    if other.pc.Reading? {
      assert u in w.readers;
      assert !Exclusive(th.op) && !th.pc.Marked?;
      ActKeepsChunks(w.shared, th, pick);
    } else if Inside(other.pc) && !other.op.ReadFile? {
      InsideIsActive(w, u);
    }
  }

  lemma MoveKeepsInv(w: World, t: nat, pick: Digest)
    requires Inv(w) && t < |w.threads|
    ensures Inv(Move(w, t, pick))
    ensures Sequential(Move(w, t, pick)) == Follow(Sequential(w), TurnEvent(w, t, pick))
  {
    hide Sound, Exact, LocksOk, Act, Current, EventOf, Sequential, Next;
    var th, m := w.threads[t], Move(w, t, pick);
    assert Current(w.shared, th);
    if Inside(th.pc) && !th.op.ReadFile? {
      ActiveMove(w, t, pick);
      MovedCurrent(w, t, pick);
      if EventOf(w.shared, th, pick).Some? {
        var ev := EventOf(w.shared, th, pick).value;
        NoCrash(w.shared, th, pick);
        NextSound(Sequential(w), ev);
        NoHazard(Sequential(w), ev);
        NextExact(Sequential(w), ev);
      }
    } else {
      OutsideMove(w, t, pick);
      OutsideCurrent(w, t, pick);
    }
  }

  lemma NoCrash(s: State, th: Thread, pick: Digest)
    ensures EventOf(s, th, pick).Some? ==> !EventOf(s, th, pick).value.Crash?
  {
  }

  lemma NoHazard(s: State, ev: Event)
    requires Exact(s) && !ev.Crash?
    ensures !Next(s, ev).hazard
  {
    hide PcExact, WellFormed, Keep, Stage, Apply, Committed;
  }

  lemma MovedCurrent(w: World, t: nat, pick: Digest)
    requires LocksOk(w) && w.shared.pc.Idle? && AllCurrent(w) && t < |w.threads|
    requires Inside(w.threads[t].pc) && !w.threads[t].op.ReadFile?
    ensures AllCurrent(Move(w, t, pick))
  {
    hide LocksOk, Act, Current;
    var th, m := w.threads[t], Move(w, t, pick);
    forall u | 0 <= u < |m.threads| ensures Current(m.shared, m.threads[u]) {
      assert Current(w.shared, w.threads[u]);
      if u == t { ActIsCurrent(w.shared, th, pick); } else { OthersStayCurrent(w, t, u, pick); }
    }
  }

  lemma OutsideCurrent(w: World, t: nat, pick: Digest)
    requires Inv(w) && t < |w.threads| && (!Inside(w.threads[t].pc) || w.threads[t].op.ReadFile?)
    ensures AllCurrent(Move(w, t, pick))
  {
    hide Sound, Exact, LocksOk, Act;
    var th, m := w.threads[t], Move(w, t, pick);
    assert Current(w.shared, th);
    OutsideMove(w, t, pick);
    if Inside(th.pc) { ReadsWhatIsStored(w.shared, th, pick, Sequential(w).pc); }
    forall u | 0 <= u < |m.threads| ensures Current(m.shared, m.threads[u]) {
      assert Current(w.shared, w.threads[u]);
    }
  }

  // ---------------------------------------------------------------- every schedule is a sequential run

  /** Threads about to start on a store that any earlier run, with any crashes, left ready. */
  ghost predicate Begins(w: World, events: seq<Event>) {
    && w.shared == Run(INIT, events) && w.shared.pc.Idle? && !w.shared.hazard
    && (forall t :: 0 <= t < |w.threads| ==> w.threads[t].pc.Start?)
    && w.putLock.None? && w.gcLock.None? && w.readers == {} && w.writer.None? && w.issued == map[]
  }

  /** The sequential events of a schedule. */
  ghost function Trace(w: World, turns: seq<Turn>): seq<Event>
    requires w.shared.pc.Idle?
  {
    if turns == [] then [] else
    var before := Schedule(w, turns[..|turns| - 1]);
    var turn := turns[|turns| - 1];
    var ev := if turn.thread < |w.threads| then TurnEvent(before, turn.thread, turn.pick) else None;
    Trace(w, turns[..|turns| - 1]) + if ev.Some? then [ev.value] else []
  }

  lemma BeginsWithInv(w: World, events: seq<Event>)
    requires Begins(w, events)
    ensures Inv(w) && Sequential(w) == w.shared
  {
    hide Sound, Exact;
    RunSound(events);
    RunExact(events);
    forall t | 0 <= t < |w.threads| ensures Agrees(w, t) { }
    assert Active(w).None?;
    assert w.shared.(pc := Idle(w.shared.pc.current)) == w.shared;
  }

  lemma RunSnoc(events: seq<Event>, ev: Event)
    ensures Run(INIT, events + [ev]) == Next(Run(INIT, events), ev)
  {
  }

  /** Every interleaving of any operations is a run of the sequential engine. */
  lemma {:induction false} ScheduleIsSequential(w: World, events: seq<Event>, turns: seq<Turn>)
    requires Begins(w, events)
    ensures Inv(Schedule(w, turns))
    ensures Sequential(Schedule(w, turns)) == Run(INIT, events + Trace(w, turns))
  {
    hide Run, Move, Inv, TurnEvent, Sequential, Next;
    if turns == [] {
      BeginsWithInv(w, events);
      assert events + Trace(w, turns) == events;
    } else {
      var init, turn := turns[..|turns| - 1], turns[|turns| - 1];
      ScheduleIsSequential(w, events, init);
      var before := Schedule(w, init);
      if turn.thread < |w.threads| {
        MoveKeepsInv(before, turn.thread, turn.pick);
        var ev := TurnEvent(before, turn.thread, turn.pick);
        if ev.Some? {
          RunSnoc(events + Trace(w, init), ev.value);
          assert events + Trace(w, turns) == events + Trace(w, init) + [ev.value];
        } else {
          assert Trace(w, turns) == Trace(w, init);
        }
      } else {
        assert Trace(w, turns) == Trace(w, init);
      }
    }
  }

  // ---------------------------------------------------------------- chunks are never pulled away

  /** What a thread counts on finding in the store. */
  ghost predicate CanRely(s: State, pc: Point) {
    match pc
    case Storing(job, k) => k <= |job.parts| && PartsIn(job.parts, k, s.written.Keys)
    case Missing(job, k) => k <= |job.parts| && PartsIn(job.parts, k, s.written.Keys)
    case Flushed(job) => PartsIn(job.parts, |job.parts|, s.durable)
    case Chosen(job, _) => PartsIn(job.parts, |job.parts|, s.durable)
    case Logged(r, _) => ChunksIn(r.manifest, s.durable)
    case Updating(r, _) => ChunksIn(r.manifest, s.durable)
    case Reading(chunks, _) => forall i :: 0 <= i < |chunks| ==> chunks[i] in s.written
    case ChunkLost => false
    case _ => true
  }

  lemma CurrentCanRely(w: World, t: nat)
    requires Inv(w) && t < |w.threads|
    ensures CanRely(w.shared, w.threads[t].pc)
  {
    hide LocksOk, Exact, Sound, Active, CanRely, Current;
    var th := w.threads[t];
    assert Current(w.shared, th);
    if Inside(th.pc) && !th.op.ReadFile? {
      InsideIsActive(w, t);
      assert Sequential(w) == View(w.shared, th.pc);
      InsideCanRely(w.shared, th);
    } else {
      OutsideCanRely(w.shared, th);
    }
  }

  lemma InsideCanRely(s: State, th: Thread)
    requires s.pc.Idle? && Sound(View(s, th.pc)) && Current(s, th)
    ensures CanRely(s, th.pc)
  {
    hide TablesBacked, ShotsOk, RecsOk, StoreOk, Referenced, ChunksIn;
    if th.pc.Logged? || th.pc.Updating? { assert ChunksIn([th.pc.r][0].manifest, s.durable); }
  }

  lemma OutsideCanRely(s: State, th: Thread)
    requires Current(s, th) && (!Inside(th.pc) || th.op.ReadFile?)
    ensures CanRely(s, th.pc)
  {
  }

  /** No chunk that a put in flight found or appended, that a committed put names, or that a reader
      has yet to read, is ever reclaimed; no reader misses a chunk. */
  lemma NothingReliedOnIsReclaimed(w: World, events: seq<Event>, turns: seq<Turn>, t: nat)
    requires Begins(w, events) && t < |w.threads|
    ensures var m := Schedule(w, turns); CanRely(m.shared, m.threads[t].pc)
  {
    hide Inv, Schedule, Run;
    ScheduleIsSequential(w, events, turns);
    CurrentCanRely(Schedule(w, turns), t);
  }

  /** In every state of every schedule, each listed version can be extracted. */
  lemma ListedVersionsStayReadable(w: World, events: seq<Event>, turns: seq<Turn>, id: ObjectId, i: nat)
    requires Begins(w, events)
    requires var s := Schedule(w, turns).shared; id in s.tables.objects && i < |s.tables.objects[id].versions|
    ensures var s := Schedule(w, turns).shared;
            var d := s.tables.objects[id].versions[i].manifest;
            Extract(s.tables, s.written, d) == Some(d.data)
  {
    hide Sound, Exact, Schedule, LocksOk, Run;
    ScheduleIsSequential(w, events, turns);
    ListedVersionsExtract(Sequential(Schedule(w, turns)), id, i);
  }

  // ---------------------------------------------------------------- no deadlock

  /** A thread inside always has a step. */
  lemma InsideMoves(s: State, th: Thread) returns (pick: Digest)
    requires s.pc.Idle? && Inside(th.pc)
    ensures Act(s, th, pick).pc != th.pc
  {
    hide Stage, Apply, Committed, Keep, Capture, Restore, RolledBack, Rollback, Prune, Snapshot, MarkSucceeds,
         FindVersion, RecordFor;
    pick := Digest([]);
    if th.pc.Marked? && th.pc.dead != {} { pick :| pick in th.pc.dead; }
  }

  lemma InsideCanMove(w: World, t: nat) returns (pick: Digest)
    requires w.shared.pc.Idle? && t < |w.threads| && Inside(w.threads[t].pc)
    ensures Move(w, t, pick) != w
  {
    hide Act;
    pick := InsideMoves(w.shared, w.threads[t]);
    assert Move(w, t, pick).threads[t].pc == Act(w.shared, w.threads[t], pick).pc;
  }

  /** While some thread is not finished, some thread can move. */
  lemma SomeThreadMoves(w: World, t: nat) returns (u: nat, pick: Digest)
    requires w.shared.pc.Idle? && LocksOk(w) && t < |w.threads| && !Over(w.threads[t].pc)
    ensures u < |w.threads| && Move(w, u, pick) != w
  {
    u := t;
    if !Inside(w.threads[t].pc) {
      u := Blocker(w, t);
    }
    hide LocksOk, Act;
    if Inside(w.threads[u].pc) {
      pick := InsideCanMove(w, u);
    } else {
      pick := Digest([]);
      assert Move(w, u, pick).threads[u].pc != w.threads[u].pc;
    }
  }

  /** The thread that can go on: one inside, or, with `op_lock` free, the holder of the first lock. */
  lemma Blocker(w: World, t: nat) returns (u: nat)
    requires LocksOk(w) && t < |w.threads| && !Over(w.threads[t].pc) && !Inside(w.threads[t].pc)
    ensures u < |w.threads|
    ensures || Inside(w.threads[u].pc)
            || (w.threads[u].pc.Queued? && w.writer.None? && w.readers == {})
            || (w.threads[u].pc.Start? && FirstLock(w, u).threads[u].pc.Queued?)
  {
    assert Agrees(w, t);
    if w.writer.Some? {
      u := w.writer.value;
      assert Agrees(w, u);
    } else if w.readers != {} {
      u :| u in w.readers;
      assert Agrees(w, u);
    } else {
      u := t;
      if w.threads[t].pc.Start? && NeedsPut(w.threads[t].op) && w.putLock.Some? { u := w.putLock.value; }
      if w.threads[t].pc.Start? && w.threads[t].op.Collect? && w.gcLock.Some? { u := w.gcLock.value; }
      assert Agrees(w, u);
    }
  }

  /** No schedule deadlocks. */
  lemma NoScheduleDeadlocks(w: World, events: seq<Event>, turns: seq<Turn>, t: nat)
    requires Begins(w, events) && t < |w.threads| && !Over(Schedule(w, turns).threads[t].pc)
    ensures var m := Schedule(w, turns);
            exists u: nat, pick :: u < |m.threads| && Move(m, u, pick) != m
  {
    hide Schedule, Move, Run;
    ScheduleIsSequential(w, events, turns);
    var u, pick := SomeThreadMoves(Schedule(w, turns), t);
  }

  // ---------------------------------------------------------------- version numbers

  /** Operations that neither rebind a name nor take a number other than by a put. */
  predicate KeepsNumbering(op: Op) {
    !op.MoveFile? && !op.RemoveFile? && !op.UnbindName? && !op.RollBackFile?
  }

  /** The latest number of the object a name is bound to; zero if it is not bound. */
  function LatestOf(t: Tables, name: Name): nat {
    if name in t.names && t.names[name] in t.objects then t.objects[t.names[name]].latest else 0
  }

  /** A put raises the latest number of its own name by one and leaves all others. */
  lemma PutNumbers(t: Tables, h: History, job: Job, lsn: nat, name: Name)
    requires WellFormed(t, h) && job.newId !in h.used
    ensures NameResolves(t, job.name)
    ensures var r := RecordFor(t, job, lsn);
            && r.number == LatestOf(t, job.name) + 1
            && LatestOf(Apply(t, r), name) == if name == job.name then r.number else LatestOf(t, name)
  {
    hide RecordFor, HasNumber, RecordOk;
    RecordForIsNew(t, h, job, lsn);
    RecordForIds(t, job, lsn);
    var r := RecordFor(t, job, lsn);
    assert Apply(t, r).objects == t.objects[r.id := Record(r.number, RecordOr(t.objects, r).versions + [VersionOf(r)])];
    if name in t.names && name != job.name {
      assert t.names[name] in t.objects;
      ObjectsAreUsed(t, h, t.names[name]);
    }
  }

  /** One step changes a name's latest number only when it issues that name's next number. */
  lemma ActNumbers(s: State, th: Thread, pick: Digest, name: Name)
    requires s.pc.Idle? && Inside(th.pc) && Current(s, th) && KeepsNumbering(th.op)
    requires th.pc.Chosen? ==> s.tables == s.spec && WellFormed(s.spec, s.h) && th.pc.job.newId !in s.h.used
    ensures var next := LatestOf(Act(s, th, pick).shared.spec, name);
            if th.pc.Chosen? && th.pc.r.name == name then next == th.pc.r.number == LatestOf(s.spec, name) + 1
            else next == LatestOf(s.spec, name)
  {
    hide Stage, Apply, Committed, Keep, Capture, Restore, RolledBack, Rollback, MarkSucceeds, FindVersion, RecordFor,
         WellFormed;
    if th.pc.Chosen? {
      var job, lsn := th.pc.job, s.pc.current + 1;
      PutNumbers(s.spec, s.h, job, lsn, name);
      RecordRenumbered(s.spec, job, lsn);
      RecordForIds(s.spec, job, lsn);
    }
  }

  lemma RecordRenumbered(t: Tables, job: Job, lsn: nat)
    requires NameResolves(t, job.name)
    ensures RecordFor(t, job, 0).(lsn := lsn) == RecordFor(t, job, lsn)
  {
  }

  /** The put of `name` by this thread has its version number. */
  predicate Numbered(th: Thread, name: Name) {
    th.op.PutFile? && th.op.job.name == name && (th.pc.Logged? || th.pc.Updating? || th.pc.Closing? || th.pc.Finished?)
  }

  function CountNumbered(threads: seq<Thread>, name: Name): nat {
    if threads == [] then 0
    else CountNumbered(threads[..|threads| - 1], name) + if Numbered(threads[|threads| - 1], name) then 1 else 0
  }

  lemma {:induction false} CountAfter(threads: seq<Thread>, t: nat, th: Thread, name: Name)
    requires t < |threads|
    ensures CountNumbered(threads[t := th], name) + (if Numbered(threads[t], name) then 1 else 0) ==
            CountNumbered(threads, name) + if Numbered(th, name) then 1 else 0
  {
    hide Numbered;
    var n := |threads| - 1;
    if t == n {
      assert threads[t := th][..n] == threads[..n];
    } else {
      CountAfter(threads[..n], t, th, name);
      assert threads[t := th][..n] == threads[..n][t := th];
    }
  }

  /** The numbers issued for a name are the next ones in order, one for each put that committed. */
  ghost predicate Consecutive(w: World, base: Tables, name: Name) {
    var got := Got(w.issued, name);
    && LatestOf(w.shared.spec, name) == LatestOf(base, name) + |got|
    && (forall i :: 0 <= i < |got| ==> got[i] == LatestOf(base, name) + i + 1)
    && |got| == CountNumbered(w.threads, name)
  }

  /** A step gives its put a number exactly when it issues one. */
  lemma ActCounts(s: State, th: Thread, pick: Digest, name: Name)
    requires s.pc.Idle? && Inside(th.pc) && Current(s, th)
    ensures var after := Thread(th.op, Act(s, th, pick).pc);
            Numbered(after, name) <==> Numbered(th, name) || (th.pc.Chosen? && th.pc.r.name == name)
    ensures th.pc.Chosen? ==> !Numbered(th, name)
  {
    hide Stage, Apply, Committed, Keep, Capture, Restore, RolledBack, Rollback, Prune, Snapshot, MarkSucceeds,
         FindVersion, RecordFor;
  }

  lemma MoveKeepsConsecutive(w: World, t: nat, pick: Digest, base: Tables, name: Name)
    requires Inv(w) && t < |w.threads| && KeepsNumbering(w.threads[t].op) && Consecutive(w, base, name)
    ensures Consecutive(Move(w, t, pick), base, name)
  {
    hide Act, Numbered, Current, Sound, Exact, LocksOk, Consecutive;
    var th := w.threads[t];
    assert Current(w.shared, th);
    if Inside(th.pc) {
      if th.pc.Chosen? { ChosenIsFresh(w, t); }
      ActKeepsConsecutive(w, t, pick, base, name);
    } else {
      OutsideCounts(w, t, pick, name);
      OutsideConsecutive(w, Move(w, t, pick), t, base, name);
    }
  }

  lemma OutsideConsecutive(w: World, m: World, t: nat, base: Tables, name: Name)
    requires t < |w.threads| == |m.threads| && Consecutive(w, base, name)
    requires m.shared == w.shared && m.issued == w.issued && m.threads == w.threads[t := m.threads[t]]
    requires Numbered(m.threads[t], name) <==> Numbered(w.threads[t], name)
    ensures Consecutive(m, base, name)
  {
    hide LatestOf, Numbered, CountNumbered;
    CountAfter(w.threads, t, m.threads[t], name);
  }

  lemma ActKeepsConsecutive(w: World, t: nat, pick: Digest, base: Tables, name: Name)
    requires w.shared.pc.Idle? && t < |w.threads| && Inside(w.threads[t].pc) && Current(w.shared, w.threads[t])
    requires KeepsNumbering(w.threads[t].op) && Consecutive(w, base, name)
    requires w.threads[t].pc.Chosen? ==>
               var s := w.shared;
               s.tables == s.spec && WellFormed(s.spec, s.h) && w.threads[t].pc.job.newId !in s.h.used
    ensures Consecutive(Move(w, t, pick), base, name)
  {
    hide Act, LatestOf, Numbered, Current, WellFormed, CountNumbered;
    var th := w.threads[t];
    ActNumbers(w.shared, th, pick, name);
    ActCounts(w.shared, th, pick, name);
    CountAfter(w.threads, t, Thread(th.op, Act(w.shared, th, pick).pc), name);
  }

  lemma OutsideCounts(w: World, t: nat, pick: Digest, name: Name)
    requires w.shared.pc.Idle? && t < |w.threads| && !Inside(w.threads[t].pc)
    ensures var m := Move(w, t, pick);
            && m.shared == w.shared && m.issued == w.issued &&
                m.threads == w.threads[t := Thread(w.threads[t].op, m.threads[t].pc)]
            && (Numbered(m.threads[t], name) <==> Numbered(w.threads[t], name))
  {
    assert w.threads == w.threads[t := w.threads[t]];
  }

  lemma ChosenIsFresh(w: World, t: nat)
    requires Inv(w) && t < |w.threads| && w.threads[t].pc.Chosen?
    ensures var s := w.shared; s.tables == s.spec && WellFormed(s.spec, s.h) && w.threads[t].pc.job.newId !in s.h.used
  {
    hide Sound, WellFormed, LocksOk, Active;
    assert Current(w.shared, w.threads[t]);
    InsideIsActive(w, t);
  }

  /** Puts, prunes, reads, snapshots and collections in any interleaving: the puts to one name that
      committed got distinct, consecutive version numbers, continuing from where the name stood. */
  lemma {:induction false} PutsGetConsecutiveVersions(w: World, events: seq<Event>, turns: seq<Turn>, name: Name)
    requires Begins(w, events) && forall t :: 0 <= t < |w.threads| ==> KeepsNumbering(w.threads[t].op)
    ensures var m := Schedule(w, turns);
            && Consecutive(m, w.shared.spec, name)
            && forall t :: 0 <= t < |w.threads| ==> m.threads[t].op == w.threads[t].op
  {
    hide Run, Move, Inv, Consecutive;
    if turns == [] {
      NothingNumbered(w.threads, name);
      NothingIssued(w, name);
    } else {
      var init, turn := turns[..|turns| - 1], turns[|turns| - 1];
      PutsGetConsecutiveVersions(w, events, init, name);
      if turn.thread < |w.threads| {
        ScheduleIsSequential(w, events, init);
        MoveKeepsConsecutive(Schedule(w, init), turn.thread, turn.pick, w.shared.spec, name);
        MoveKeepsOps(Schedule(w, init), turn.thread, turn.pick);
      }
    }
  }

  lemma MoveKeepsOps(w: World, t: nat, pick: Digest)
    requires w.shared.pc.Idle? && t < |w.threads|
    ensures forall u :: 0 <= u < |w.threads| ==> Move(w, t, pick).threads[u].op == w.threads[u].op
  {
    hide Act;
  }

  lemma NothingIssued(w: World, name: Name)
    requires w.issued == map[] && CountNumbered(w.threads, name) == 0
    ensures Consecutive(w, w.shared.spec, name)
  {
  }

  lemma {:induction false} NothingNumbered(threads: seq<Thread>, name: Name)
    requires forall t :: 0 <= t < |threads| ==> threads[t].pc.Start?
    ensures CountNumbered(threads, name) == 0
  {
    if threads != [] { NothingNumbered(threads[..|threads| - 1], name); }
  }

  // ---------------------------------------------------------------- what a reader reads

  lemma {:induction false} PushAllExtends(objects: map<ObjectId, Record>, recs: seq<PutRec>, id: ObjectId)
    requires id in objects
    ensures id in PushAll(objects, recs) && objects[id].versions <= PushAll(objects, recs)[id].versions
  {
    hide HasNumber;
    if recs != [] { PushAllExtends(objects, recs[..|recs| - 1], id); }
  }

  /** In the middle of a put or a recovery, too, what an object lists is the beginning of what it will list. */
  lemma ListedSoFar(s: State, id: ObjectId)
    requires Exact(s) && id in s.tables.objects
    ensures id in s.spec.objects && s.tables.objects[id].versions <= s.spec.objects[id].versions
  {
    hide WellFormed, PushAll, Replay, Pending, Rest, AllListed;
    if s.pc.Applying? {
      ReplayByTable(s.tables, s.pc.recs);
      PushAllExtends(s.tables.objects, s.pc.recs, id);
    } else if s.pc.Down? {
      ReplayByTable(s.tables, Pending(s.log, s.ckpt));
      PushAllExtends(s.tables.objects, Pending(s.log, s.ckpt), id);
    }
  }

  /** The last version an object lists has its highest number, and the bytes that number was put with. */
  lemma LastIsNewest(s: State, id: ObjectId)
    requires Exact(s) && id in s.tables.objects && s.tables.objects[id].versions != []
    ensures var vs := s.tables.objects[id].versions;
            var v := vs[|vs| - 1];
            && v.number == MaxNumber(vs)
            && (id, v.number) in s.h.origin && s.h.origin[(id, v.number)] == v.manifest.data
  {
    ListedSoFar(s, id);
    hide PcExact;
    var all := s.spec.objects[id];
    var vs := s.tables.objects[id].versions;
    assert RecordOk(id, all, s.h);
    assert VersionOk(id, all.versions[|vs| - 1], all.latest, s.h);
    assert forall i, j :: 0 <= i < j < |vs| ==> vs[i].number < vs[j].number;
  }

  /** Under any schedule a reader sets out to read exactly the bytes of the highest version that its name's
      object lists at that moment, also while a put is under way. */
  lemma ReadersReadTheNewest(w: World, events: seq<Event>, turns: seq<Turn>, t: nat, pick: Digest)
    requires Begins(w, events) && t < |w.threads|
    requires var th := Schedule(w, turns).threads[t]; th.op.ReadFile? && th.pc.Entered?
    requires Move(Schedule(w, turns), t, pick).threads[t].pc.Reading?
    ensures var m := Schedule(w, turns);
            var s, name, read := m.shared, m.threads[t].op.name, Move(m, t, pick).threads[t].pc;
            && name in s.tables.names && s.tables.names[name] in s.tables.objects
            && var id := s.tables.names[name];
            var n := MaxNumber(s.tables.objects[id].versions);
            (id, n) in s.h.origin && Spell(read.chunks) == s.h.origin[(id, n)] && read.k == 0
  {
    ScheduleIsSequential(w, events, turns);
    hide Schedule, Run, LocksOk, Exact, Sound, MaxNumber, Act, Spell, AllCurrent;
    var m := Schedule(w, turns);
    EnteredReadsNewest(m.shared, Sequential(m), m.threads[t], pick);
  }

  lemma EnteredReadsNewest(s: State, whole: State, th: Thread, pick: Digest)
    requires s.pc.Idle? && whole == s.(pc := whole.pc) && Sound(whole) && Exact(whole)
    requires th.op.ReadFile? && th.pc.Entered? && Act(s, th, pick).pc.Reading?
    ensures var name, read := th.op.name, Act(s, th, pick).pc;
            && name in s.tables.names && s.tables.names[name] in s.tables.objects
            && var id := s.tables.names[name];
            var n := MaxNumber(s.tables.objects[id].versions);
            (id, n) in s.h.origin && Spell(read.chunks) == s.h.origin[(id, n)] && read.k == 0
  {
    EnteredReads(s, th, pick);
    hide Exact, Sound, MaxNumber, Act, Spell;
    var id := s.tables.names[th.op.name];
    LastIsNewest(whole, id);
    ListedSpells(whole, id, |s.tables.objects[id].versions| - 1);
  }

  lemma ListedSpells(s: State, id: ObjectId, i: nat)
    requires Sound(s) && id in s.tables.objects && i < |s.tables.objects[id].versions|
    ensures var d := s.tables.objects[id].versions[i].manifest;
            d in s.tables.manifests && Spell(s.tables.manifests[d].chunks) == d.data
  {
    hide PcSound, ShotsOk, Spell;
    assert RecordBacked(s.tables.manifests, s.durable, s.tables.objects[id]);
  }

  lemma EnteredReads(s: State, th: Thread, pick: Digest)
    requires s.pc.Idle? && th.op.ReadFile? && th.pc.Entered? && Act(s, th, pick).pc.Reading?
    ensures Versions.Captured(s.tables, th.op.name)
    ensures var vs := s.tables.objects[s.tables.names[th.op.name]].versions;
            var d := vs[|vs| - 1].manifest;
            d in s.tables.manifests && Act(s, th, pick).pc == Reading(s.tables.manifests[d].chunks, 0)
  {
  }
}
