/** All-or-nothing puts, version numbering and recovery that never fails, over every run in which
    no torn checkpoint meets a log that is no longer in force. */
module EngineAtomicity {
  import opened Basics
  import opened Catalog
  import opened Versions
  import opened Engine
  import opened EngineSafety

  // ---------------------------------------------------------------- facts about the log

  predicate LsnsWithin(log: seq<PutRec>, high: nat) {
    forall i :: 0 <= i < |log| ==> 1 <= log[i].lsn <= high
  }

  lemma {:induction false} PendingNone(log: seq<PutRec>, ckpt: nat)
    ensures Pending(log, ckpt) == [] <==> forall i :: 0 <= i < |log| ==> log[i].lsn <= ckpt
  {
    if log != [] {
      PendingNone(log[..|log| - 1], ckpt);
      assert log == log[..|log| - 1] + [log[|log| - 1]];
    }
  }

  lemma {:induction false} PendingAll(log: seq<PutRec>)
    requires forall i :: 0 <= i < |log| ==> log[i].lsn >= 1
    ensures Pending(log, 0) == log
  {
    if log != [] {
      var init, last := log[..|log| - 1], log[|log| - 1];
      assert log == init + [last];
      PendingAll(init);
      hide Pending;
      PendingAppend(init, last, 0);
    }
  }

  lemma PendingAppend(log: seq<PutRec>, r: PutRec, ckpt: nat)
    ensures Pending(log + [r], ckpt) == Pending(log, ckpt) + (if r.lsn > ckpt then [r] else [])
  {
  }

  lemma MaxLsnLast(log: seq<PutRec>, ckpt: nat)
    requires log != []
    ensures MaxLsn(log, ckpt) == Max(MaxLsn(log[..|log| - 1], ckpt), log[|log| - 1].lsn)
  {
  }

  lemma {:induction false} MaxLsnBounds(log: seq<PutRec>, ckpt: nat)
    ensures MaxLsn(log, ckpt) >= ckpt
    ensures forall i :: 0 <= i < |log| ==> log[i].lsn <= MaxLsn(log, ckpt)
    ensures MaxLsn(Pending(log, ckpt), ckpt) == MaxLsn(log, ckpt)
  {
    if log != [] {
      var init, last := log[..|log| - 1], log[|log| - 1];
      MaxLsnBounds(init, ckpt);
      hide MaxLsn;
      assert MaxLsn(log, ckpt) == Max(MaxLsn(init, ckpt), last.lsn) by { MaxLsnLast(log, ckpt); }
      assert forall i :: 0 <= i < |init| ==> init[i] == log[i];
      if last.lsn > ckpt {
        MaxLsnLast(Pending(log, ckpt), ckpt);
        assert Pending(log, ckpt)[..|Pending(init, ckpt)|] == Pending(init, ckpt);
      } else {
        assert Pending(log, ckpt) == Pending(init, ckpt);
      }
    }
  }

  lemma ReplayOne(t: Tables, r: PutRec)
    ensures Replay(t, [r]) == Apply(t, r)
  {
  }

  // ---------------------------------------------------------------- finishing a replay

  /** The tables once the remaining transactions of the records have run. */
  function Rest(t: Tables, recs: seq<PutRec>, k: nat, stage: nat): Tables
    requires k <= |recs| && stage < 3
    decreases |recs| - k, 3 - stage
  {
    if k == |recs| then t
    else if stage < 2 then Rest(Stage(t, recs[k], stage), recs, k, stage + 1)
    else Rest(Stage(t, recs[k], stage), recs, k + 1, 0)
  }

  lemma {:induction false} RestIsReplay(t: Tables, recs: seq<PutRec>, k: nat)
    requires k <= |recs|
    ensures Rest(t, recs, k, 0) == Replay(t, recs[k..])
    decreases |recs| - k
  {
    if k < |recs| {
      hide Stage;
      var u := Apply(t, recs[k]);
      RestIsReplay(u, recs, k + 1);
      ReplayConcat(t, [recs[k]], recs[k + 1..]);
      ReplayOne(t, recs[k]);
      assert recs[k..] == [recs[k]] + recs[k + 1..];
      var t1 := Stage(t, recs[k], 0);
      var t2 := Stage(t1, recs[k], 1);
      assert Rest(t, recs, k, 0) == Rest(t1, recs, k, 1) == Rest(t2, recs, k, 2) == Rest(u, recs, k + 1, 0);
    } else {
      assert recs[k..] == [];
    }
  }

  /** Where an application of records stands: replaying all of them, or finishing from here,
      both lead to `spec`, and what was pushed so far is listed. */
  predicate Progress(t: Tables, recs: seq<PutRec>, k: nat, stage: nat, spec: Tables) {
    && k <= |recs| && stage < 3 && (stage > 0 ==> k < |recs|)
    && Replay(t, recs) == spec
    && Rest(t, recs, k, stage) == spec
    && AllListed(t.objects, recs[..if stage == 2 then k + 1 else k])
  }

  // ---------------------------------------------------------------- the invariant

  predicate Quiet(s: State, current: nat) {
    s.tables == s.spec && s.ckpt <= current && LsnsWithin(s.log, s.ckpt)
  }

  ghost predicate PcExact(s: State) {
    match s.pc
    case Down =>
      var pending := Pending(s.log, s.ckpt);
      && Replay(s.tables, pending) == s.spec
      && LogChunksIn(pending, s.durable)
      && (forall i :: 0 <= i < |s.log| ==> s.log[i].lsn >= 1)
    case Failed => false
    case Idle(current) => Quiet(s, current)
    case Writing(current, job, _) => Quiet(s, current) && job.newId !in s.h.used
    case Synced(current, job) => Quiet(s, current) && job.newId !in s.h.used
    case Sweeping(current, _, _) => Quiet(s, current)
    case Applying(current, recs, k, stage, lsn, _) =>
      && recs == Pending(s.log, s.ckpt)
      && lsn == current && s.ckpt <= current && LsnsWithin(s.log, current)
      && Progress(s.tables, recs, k, stage, s.spec)
      && LogChunksIn(recs, s.durable)
    case Checkpoint(current, lsn, phase) =>
      && lsn == current && LsnsWithin(s.log, current) && s.tables == s.spec
      && (phase == 0 ==>
            Replay(s.tables, Pending(s.log, s.ckpt)) == s.spec && LogChunksIn(Pending(s.log, s.ckpt), s.durable))
      && (phase == 1 ==> s.ckpt == 0)
      && (phase > 1 ==> s.ckpt == current)
  }

  ghost predicate Exact(s: State) {
    !s.hazard && WellFormed(s.spec, s.h) && PcExact(s)
  }

  // ---------------------------------------------------------------- steps of a put

  /** A record appended to a log that was all checkpointed is the one thing pending. */
  lemma AppendedIsPending(t: Tables, log: seq<PutRec>, ckpt: nat, r: PutRec)
    requires LsnsWithin(log, ckpt) && r.lsn > ckpt
    ensures Pending(log + [r], ckpt) == [r] && Progress(t, [r], 0, 0, Apply(t, r))
  {
    hide Apply, Pending, Replay, Rest;
    PendingNone(log, ckpt);
    PendingAppend(log, r, ckpt);
    ReplayOne(t, r);
    RestIsReplay(t, [r], 0);
    assert [r][0..] == [r] && [r][..0] == [];
  }

  lemma CommitStepExact(s: State)
    requires Sound(s) && Exact(s) && s.pc.Synced?
    ensures Exact(CommitStep(s))
    ensures NameResolves(s.tables, s.pc.job.name)
  {
    hide WellFormed, Sound, RecordFor, Apply, Pending, Progress, ChunksIn, ManifestFor, Committed;
    var job, lsn := s.pc.job, s.pc.current + 1;
    PutKeepsWellFormed(s.spec, s.h, job, lsn);
    RecordForIds(s.tables, job, lsn);
    AppendedIsPending(s.tables, s.log, s.ckpt, RecordFor(s.tables, job, lsn));
    PartsAreDurable(s);
  }

  lemma PartsAreDurable(s: State)
    requires Sound(s) && s.pc.Synced?
    ensures ChunksIn(ManifestFor(s.pc.job), s.durable)
  {
  }

  lemma ListedAfterStage(t: Tables, recs: seq<PutRec>, k: nat, stage: nat)
    requires k < |recs| && stage < 3
    requires AllListed(t.objects, recs[..if stage == 2 then k + 1 else k])
    ensures AllListed(t.objects, recs[..k])
    ensures AllListed(Stage(t, recs[k], stage).objects, recs[..if stage > 0 then k + 1 else k])
  {
    var a, b := recs[..k], recs[..k + 1];
    assert b == a + [recs[k]];
    if stage == 2 { assert forall i :: 0 <= i < k ==> a[i] == b[i]; }
    if stage == 1 {
      var o := PushVersion(t.objects, recs[k]);
      forall i | 0 <= i < |b| ensures Listed(o, b[i]) {
        if i < k { assert a[i] == b[i]; }
        PushKeepsListed(t.objects, recs[k], b[i]);
      }
    }
  }

  lemma StageProgress(t: Tables, recs: seq<PutRec>, k: nat, stage: nat, spec: Tables)
    requires k < |recs| && Progress(t, recs, k, stage, spec)
    ensures var u := Stage(t, recs[k], stage);
            if stage < 2 then Progress(u, recs, k, stage + 1, spec) else Progress(u, recs, k + 1, 0, spec)
  {
    hide Stage, Listed, Replay, AllListed;
    ListedAfterStage(t, recs, k, stage);
    StageAbsorbed(t, recs, k, stage);
  }

  lemma ApplyStepExact(s: State)
    requires Sound(s) && Exact(s) && s.pc.Applying?
    ensures Exact(ApplyStep(s))
  {
    hide Sound, WellFormed, Stage, Progress, LogChunksIn, ChunksIn, Pending, Replay, LsnsWithin, AllListed;
    var Applying(current, recs, k, stage, lsn, replay) := s.pc;
    PendingChunksPresent(s);
    if k < |recs| {
      StageProgress(s.tables, recs, k, stage, s.spec);
      assert ApplyStep(s).durable == s.durable || ApplyStep(s).durable == s.written.Keys;
    } else {
      ProgressDone(s.tables, recs, k, stage, s.spec);
    }
  }

  lemma PendingChunksPresent(s: State)
    requires Sound(s) && Exact(s) && s.pc.Applying?
    ensures LogChunksIn(s.pc.recs, s.written.Keys)
    ensures s.pc.k < |s.pc.recs| ==> ChunksIn(s.pc.recs[s.pc.k].manifest, s.written.Keys)
  {
  }

  lemma ProgressDone(t: Tables, recs: seq<PutRec>, k: nat, stage: nat, spec: Tables)
    requires Progress(t, recs, k, stage, spec) && k >= |recs|
    ensures t == spec && Replay(t, recs) == spec
  {
  }

  lemma ChunksGrow(recs: seq<PutRec>, a: set<Digest>, b: set<Digest>)
    requires a <= b && LogChunksIn(recs, a)
    ensures LogChunksIn(recs, b)
  {
  }

  lemma CheckpointStepExact(s: State)
    requires Exact(s) && s.pc.Checkpoint?
    ensures Exact(CheckpointStep(s))
  {
    hide WellFormed, Replay;
  }

  lemma ProgressReplays(s: State)
    requires PcExact(s)
    ensures s.pc.Applying? ==> Replay(s.tables, Pending(s.log, s.ckpt)) == s.spec
  {
  }

  lemma CrashExact(s: State, keep: set<Digest>)
    requires Exact(s) && !CrashOf(s, keep).hazard
    ensures Exact(CrashOf(s, keep))
  {
    hide WellFormed, InForce, Pending, Progress, ChunksIn;
    PendingNone(s.log, s.ckpt);
    ProgressReplays(s);
    if s.pc.Checkpoint? && s.pc.phase == 1 {
      PendingAll(s.log);
      InForceIffUnchanged(s.tables, s.log);
    }
  }

  lemma ReplayNothing(t: Tables)
    ensures Replay(t, []) == t
  {
  }

  lemma OpenExact(s: State)
    requires Exact(s) && s.pc.Down?
    ensures Exact(OpenOf(s))
  {
    hide WellFormed, Replay, Pending, MaxLsn, Rest;
    var pending := Pending(s.log, s.ckpt);
    PendingNone(s.log, s.ckpt);
    MaxLsnBounds(s.log, s.ckpt);
    ReplayNothing(s.tables);
    if pending != [] {
      RestIsReplay(s.tables, pending, 0);
      assert pending[0..] == pending;
    }
  }

  lemma IdleOpExact(s: State, ev: Event)
    requires Exact(s) && s.pc.Idle?
    ensures Exact(IdleOp(s, ev))
  {
    hide WellFormed, Rollback, RolledBack, Prune, Rename, Unbind, Delete, MarkSucceeds, Restore, Capture;
    match ev
    case RollbackFile(name, number, now) => RollbackKeepsWellFormed(s.spec, s.h, name, number, now);
    case PruneVersions(name, keep) => PruneKeepsWellFormed(s.spec, s.h, name, keep);
    case RenameFile(name, to) => RenameKeepsWellFormed(s.spec, s.h, name, to);
    case UnbindFile(name) => UnbindKeepsWellFormed(s.spec, s.h, name);
    case DeleteFile(name) => DeleteKeepsWellFormed(s.spec, s.h, name);
    case CreateSnapshot(tag) => SnapshotKeepsWellFormed(s.spec, s.h, Snapshot(s.spec, tag));
    case DeleteSnapshot(tag) => SnapshotKeepsWellFormed(s.spec, s.h, DropSnapshot(s.spec, tag));
    case _ =>
  }

  lemma SnapshotKeepsWellFormed(t: Tables, h: History, t': Tables)
    requires WellFormed(t, h) && t'.names == t.names && t'.objects == t.objects
    ensures WellFormed(t', h)
  {
    hide RecordOk;
  }

  lemma NextExact(s: State, ev: Event)
    requires Sound(s) && Exact(s) && !Next(s, ev).hazard
    ensures Exact(Next(s, ev))
  {
    hide WellFormed, Sound, StepOf, IdleOp, OpenOf, Replay, Progress, Pending;
    match ev
    case Step => StepExact(s);
    case Crash(keep) => CrashExact(s, keep);
    case Open => if s.pc.Down? { OpenExact(s); }
    case SweepManifest(d) =>
      if s.pc.Sweeping? { SnapshotKeepsWellFormed(s.spec, s.h, SweepOf(s, d).spec); }
    case _ => if s.pc.Idle? { IdleOpExact(s, ev); }
  }

  lemma StepExact(s: State)
    requires Sound(s) && Exact(s)
    ensures Exact(StepOf(s))
  {
    hide WellFormed;
    if s.pc.Synced? { CommitStepExact(s); }
    if s.pc.Applying? { ApplyStepExact(s); }
    if s.pc.Checkpoint? { CheckpointStepExact(s); }
  }

  // ---------------------------------------------------------------- over every run

  lemma InitExact()
    ensures Exact(INIT)
  {
  }

  /** Any run, of any operations with crashes anywhere, that met no torn checkpoint with a log
      out of force. */
  lemma {:induction false} RunExact(events: seq<Event>)
    requires !Run(INIT, events).hazard
    ensures Exact(Run(INIT, events))
  {
    if events == [] {
      InitExact();
    } else {
      var init := events[..|events| - 1];
      HazardStays(Run(INIT, init), events[|events| - 1]);
      RunExact(init);
      RunSound(init);
      NextExact(Run(INIT, init), events[|events| - 1]);
    }
  }

  lemma HazardStays(s: State, ev: Event)
    ensures s.hazard ==> Next(s, ev).hazard
  {
  }
}
