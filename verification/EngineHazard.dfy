/** Concrete runs in which a torn checkpoint meets a log that is no longer in force. The stale
    record is there because a crash came after the checkpoint file was rewritten and before the
    log was truncated, and opening the store does not truncate a fully checkpointed log. */
module EngineHazard {
  import opened Catalog
  import opened Versions
  import opened Engine
  import opened EngineSafety
  import opened EngineAtomicity
  import opened EngineTheorems

  const JOB_A := Job("a", [[1]], 1, 0)
  const JOB_B := Job("b", [[2]], 2, 0)

  function Again(n: nat): seq<Event> {
    seq(n, _ => Step)
  }

  // ---------------------------------------------------------------- composing runs

  lemma {:induction false} RunConcat(s: State, a: seq<Event>, b: seq<Event>)
    ensures Run(s, a + b) == Run(Run(s, a), b)
  {
    if b == [] {
      assert a + b == a;
    } else {
      hide Next;
      RunConcat(s, a, b[..|b| - 1]);
      assert (a + b)[..|a + b| - 1] == a + b[..|b| - 1];
    }
  }

  lemma RunOne(s: State, ev: Event)
    ensures Run(s, [ev]) == Next(s, ev)
  {
  }

  lemma {:induction false} RunAgain(s: State, n: nat)
    ensures Run(s, Again(n)) == Steps(s, n)
    decreases n
  {
    if n > 0 {
      hide StepOf;
      RunAgain(StepOf(s), n - 1);
      assert Again(n) == [Step] + Again(n - 1);
      RunConcat(s, [Step], Again(n - 1));
      RunOne(s, Step);
    }
  }

  // ---------------------------------------------------------------- a one-chunk put up to the torn file

  /** The state of a put of one chunk when its checkpoint file has just been truncated. */
  function Torn(s: State, job: Job): State
    requires s.pc.Idle? && NameResolves(s.tables, job.name) && |job.parts| == 1
  {
    var id := Digest(job.parts[0]);
    var written := if id in s.written then s.written else s.written[id := job.parts[0]];
    var lsn := s.pc.current + 1;
    var r := RecordFor(s.tables, job, lsn);
    s.(written := written, durable := written.Keys, log := s.log + [r], ckpt := 0,
       tables := Apply(s.tables, r), pc := Checkpoint(lsn, lsn, 1),
       spec := Apply(s.spec, r), h := Committed(s.h, r))
  }

  lemma {:induction false} StepsAdd(s: State, m: nat, n: nat)
    ensures Steps(s, m + n) == Steps(Steps(s, m), n)
    decreases m
  {
    hide StepOf;
    if m > 0 { StepsAdd(StepOf(s), m - 1, n); }
  }

  lemma TwoSteps(s: State)
    ensures Steps(s, 2) == StepOf(StepOf(s))
  {
  }

  lemma ThreeSteps(s: State)
    ensures Steps(s, 3) == StepOf(StepOf(StepOf(s)))
  {
  }

  lemma WriteAndSync(s: State, job: Job)
    requires s.pc.Writing? && s.pc.job == job && s.pc.k == 0 && |job.parts| == 1
    ensures Steps(s, 2) ==
            var id := Digest(job.parts[0]);
            var written := if id in s.written then s.written else s.written[id := job.parts[0]];
            s.(written := written, durable := written.Keys, pc := Synced(s.pc.current, job))
  {
  }

  lemma ApplyOne(s: State, r: PutRec, lsn: nat)
    requires s.pc == Applying(lsn, [r], 0, 0, lsn, false)
    ensures Steps(s, 5) == s.(tables := Apply(s.tables, r), ckpt := 0, pc := Checkpoint(lsn, lsn, 1))
  {
    hide Stage, Steps;
    StepsAdd(s, 3, 2);
    ThreeSteps(s);
    var e := Steps(s, 3);
    var s1 := StepOf(s);
    assert s1 == s.(tables := Stage(s.tables, r, 0), pc := Applying(lsn, [r], 0, 1, lsn, false));
    var s2 := StepOf(s1);
    assert s2 == s1.(tables := Stage(s1.tables, r, 1), pc := Applying(lsn, [r], 0, 2, lsn, false));
    assert e == s.(tables := Apply(s.tables, r), pc := Applying(lsn, [r], 1, 0, lsn, false));
    TwoSteps(e);
  }

  lemma PutReachesTorn(s: State, job: Job)
    requires s.pc.Idle? && NameResolves(s.tables, job.name) && |job.parts| == 1 && job.newId !in s.h.used
    ensures Steps(Next(s, Put(job)), 8) == Torn(s, job)
  {
    hide Steps, RecordFor, NameResolves, Apply;
    var s0 := Next(s, Put(job));
    StepsAdd(s0, 2, 6);
    WriteAndSync(s0, job);
    var s2 := Steps(s0, 2);
    StepsAdd(s2, 1, 5);
    var s3 := StepOf(s2);
    assert Steps(s2, 1) == s3 by { OneStep(s2); }
    ApplyOne(s3, s3.pc.recs[0], s.pc.current + 1);
  }

  lemma OneStep(s: State)
    ensures Steps(s, 1) == StepOf(s)
  {
  }

  function PutAndTear(job: Job): seq<Event> {
    [Put(job)] + Again(8)
  }

  lemma RunPutAndTear(s: State, job: Job)
    requires s.pc.Idle? && NameResolves(s.tables, job.name) && |job.parts| == 1 && job.newId !in s.h.used
    ensures Run(s, PutAndTear(job)) == Torn(s, job)
  {
    hide Next, Steps, Torn, Run;
    RunConcat(s, [Put(job)], Again(8));
    RunOne(s, Put(job));
    RunAgain(Next(s, Put(job)), 8);
    PutReachesTorn(s, job);
  }

  // ---------------------------------------------------------------- how a stale record stays in the log

  const REC_A := RecordFor(EMPTY, JOB_A, 1)

  /** Ready again after put A crashed between rewriting the checkpoint and truncating the log. */
  const STALE_LOG: State :=
    State(map[Digest([1]) := [1]], {Digest([1])}, [REC_A], 1, Apply(EMPTY, REC_A), Idle(1),
          Apply(EMPTY, REC_A), Committed(History(map[], {}), REC_A), map[], false)

  function LeaveStaleLog(): seq<Event> {
    [Open] + PutAndTear(JOB_A) + [Step, Crash({}), Open]
  }

  lemma StaleLogIsReached()
    ensures Run(INIT, LeaveStaleLog()) == STALE_LOG
  {
    hide Run, Next, Torn, Apply, RecordFor;
    var s0 := INIT.(pc := Idle(0));
    var s1 := STALE_LOG.(ckpt := 0, pc := Checkpoint(1, 1, 1));
    RunConcat(INIT, [Open] + PutAndTear(JOB_A), [Step, Crash({}), Open]);
    RunConcat(INIT, [Open], PutAndTear(JOB_A));
    RunOne(INIT, Open);
    FirstOpen();
    RunPutAndTear(s0, JOB_A);
    TornA();
    RunThree(s1, Step, Crash({}), Open);
    StaleTail(s1);
  }

  lemma RunThree(s: State, a: Event, b: Event, c: Event)
    ensures Run(s, [a, b, c]) == Next(Next(Next(s, a), b), c)
  {
    hide Run, Next;
    assert [a, b, c] == [a] + [b, c] && [b, c] == [b] + [c];
    RunConcat(s, [a], [b, c]);
    RunOne(s, a);
    RunConcat(Next(s, a), [b], [c]);
    RunOne(Next(s, a), b);
    RunOne(Next(Next(s, a), b), c);
  }

  lemma FirstOpen()
    ensures Next(INIT, Open) == INIT.(pc := Idle(0))
  {
  }

  lemma StaleTail(s1: State)
    requires s1 == STALE_LOG.(ckpt := 0, pc := Checkpoint(1, 1, 1))
    ensures Next(Next(Next(s1, Step), Crash({})), Open) == STALE_LOG
  {
    hide Apply, InForce, LogChunksIn, Committed;
    var s2 := Next(s1, Step);
    assert s2 == s1.(ckpt := 1, pc := Checkpoint(1, 1, 2));
    var s3 := Next(s2, Crash({}));
    assert Keep(s2.written, s2.durable + {}) == s2.written;
    assert s3 == s2.(pc := Down);
    OnlyA();
    assert Next(s3, Open) == s3.(pc := Idle(1));
  }

  lemma OnlyA()
    ensures Pending([REC_A], 1) == [] && MaxLsn([REC_A], 1) == 1
  {
  }

  lemma RecALsn()
    ensures REC_A.lsn == 1 && REC_A.name == "a" && REC_A.id == 1 && REC_A.number == 1
    ensures REC_A.manifest == Manifest(Digest([1]), 1, 0, [Digest([1])])
  {
  }

  lemma TornA()
    ensures Torn(INIT.(pc := Idle(0)), JOB_A) == STALE_LOG.(ckpt := 0, pc := Checkpoint(1, 1, 1))
  {
  }

  // ---------------------------------------------------------------- the failing runs

  /** After `between`, put B, tear its checkpoint, crash and recover. */
  function TearAfter(between: seq<Event>): seq<Event> {
    LeaveStaleLog() + between + (PutAndTear(JOB_B) + [Crash({}), Open] + Again(10))
  }

  const REC_B := PutRec(2, "b", 2, 1, Manifest(Digest([2]), 1, 0, [Digest([2])]))

  /** Ready, the stale record still in the log, B not put yet. */
  ghost predicate BeforeB(s: State) {
    && s.pc == Idle(1) && s.log == [REC_A] && s.ckpt == 1
    && s.durable <= s.written.Keys
    && "b" !in s.tables.names && "b" !in s.spec.names && 2 !in s.h.used
  }

  lemma RecordOfB(t: Tables)
    requires "b" !in t.names
    ensures RecordFor(t, JOB_B, 2) == REC_B
  {
  }

  lemma TornB(s: State, keep: set<Digest>)
    requires BeforeB(s)
    ensures var d := OpenOf(CrashOf(Torn(s, JOB_B), keep));
            && d.pc == Applying(2, [REC_A, REC_B], 0, 0, 2, true)
            && d.tables == Apply(s.tables, REC_B)
            && d.spec == Apply(s.spec, REC_B)
            && (forall c :: c in s.durable + {Digest([2])} ==> c in d.written)
            && (forall c :: c in d.written ==> c in s.written.Keys + {Digest([2])})
  {
    RecordOfB(s.tables);
    RecordOfB(s.spec);
    RecALsn();
    hide Apply, RecordFor, TornCheckpointIsHarmless;
    var log := [REC_A, REC_B];
    LogOfAB();
    assert s.log + [REC_B] == log;
  }

  lemma LogOfAB()
    ensures Pending([REC_A, REC_B], 0) == [REC_A, REC_B] && MaxLsn([REC_A, REC_B], 0) == 2
  {
    RecALsn();
    var log := [REC_A, REC_B];
    assert log[..|log| - 1] == [REC_A] && [REC_A][..0] == [];
    PendingAll(log);
    MaxLsnLast([REC_A], 0);
    MaxLsnLast(log, 0);
  }

  lemma RunTear(s: State)
    requires BeforeB(s)
    ensures Run(s, PutAndTear(JOB_B) + [Crash({}), Open] + Again(10)) ==
            Steps(OpenOf(CrashOf(Torn(s, JOB_B), {})), 10)
  {
    hide Run, Steps, RecordFor, Apply;
    RunConcat(s, PutAndTear(JOB_B) + [Crash({}), Open], Again(10));
    RunConcat(s, PutAndTear(JOB_B), [Crash({}), Open]);
    RunPutAndTear(s, JOB_B);
    var e := Torn(s, JOB_B);
    assert [Crash({}), Open] == [Crash({})] + [Open];
    RunConcat(e, [Crash({})], [Open]);
    RunOne(e, Crash({}));
    RunOne(CrashOf(e, {}), Open);
    RunAgain(OpenOf(CrashOf(e, {})), 10);
  }

  /** Where the recovery ends while A's chunk is still stored: A's record is applied once more. */
  lemma RecoversToReplay(s: State)
    requires BeforeB(s) && Digest([1]) in s.durable
    ensures var e := Run(s, PutAndTear(JOB_B) + [Crash({}), Open] + Again(10));
            && e.pc.Idle?
            && e.tables == Replay(Apply(s.tables, REC_B), [REC_A, REC_B])
            && e.spec == Apply(s.spec, REC_B)
  {
    RunTear(s);
    TornB(s, {});
    RecALsn();
    var d := OpenOf(CrashOf(Torn(s, JOB_B), {}));
    hide Run, Steps, OpenOf, CrashOf, Torn, Apply, Replay;
    assert LogChunksIn([REC_A, REC_B], d.written.Keys);
    ReplayFinishes(d);
    RestIsReplay(d.tables, [REC_A, REC_B], 0);
    assert [REC_A, REC_B][0..] == [REC_A, REC_B];
    HeadingStays(d, Replay(d.tables, [REC_A, REC_B]), 10);
    SpecStays(d, 10);
  }

  lemma {:induction false} SpecStays(s: State, n: nat)
    requires !s.pc.Writing? && !s.pc.Synced?
    ensures Steps(s, n).spec == s.spec
    decreases n
  {
    if n > 0 {
      StepKeepsSpec(s);
      hide StepOf;
      SpecStays(StepOf(s), n - 1);
    }
  }

  lemma RunBetween(between: seq<Event>)
    ensures Run(INIT, TearAfter(between)) ==
            Run(Run(STALE_LOG, between), PutAndTear(JOB_B) + [Crash({}), Open] + Again(10))
  {
    hide Run;
    RunConcat(INIT, LeaveStaleLog() + between, PutAndTear(JOB_B) + [Crash({}), Open] + Again(10));
    RunConcat(INIT, LeaveStaleLog(), between);
    StaleLogIsReached();
  }

  /** The tables after put A alone. */
  lemma TablesOfA()
    ensures STALE_LOG.tables.names == map["a" := 1]
    ensures STALE_LOG.tables.objects == map[1 := Record(1, [Version(1, Digest([1]), 1, 0)])]
    ensures STALE_LOG.tables.manifests == map[Digest([1]) := REC_A.manifest]
    ensures BeforeB(STALE_LOG)
  {
    RecALsn();
    assert [] + [VersionOf(REC_A)] == [VersionOf(REC_A)];
  }

  lemma ReplayOfAB(t: Tables)
    ensures Replay(t, [REC_A, REC_B]) == Apply(Apply(t, REC_A), REC_B)
  {
    assert [REC_A, REC_B][..1] == [REC_A];
    ReplayOne(t, REC_A);
  }

  /** A deleted file comes back. */
  lemma DeletedFileReturns()
    ensures var e := Run(INIT, TearAfter([DeleteFile("a")]));
            e.pc.Idle? && "a" in e.tables.names && "a" !in e.spec.names
  {
    RunBetween([DeleteFile("a")]);
    RunOne(STALE_LOG, DeleteFile("a"));
    TablesOfA();
    RecALsn();
    var s := Next(STALE_LOG, DeleteFile("a"));
    assert BeforeB(s) && Digest([1]) in s.durable;
    RecoversToReplay(s);
    hide Run;
    ReplayOfAB(Apply(s.tables, REC_B));
    BindsBoth(Apply(s.tables, REC_B));
    assert Apply(s.spec, REC_B).names == s.spec.names["b" := 2];
  }

  lemma BindsBoth(t: Tables)
    ensures Apply(Apply(t, REC_A), REC_B).names == t.names["a" := 1]["b" := 2]
  {
  }

  /** A renamed file's old name comes back, so two names bind one object. */
  lemma RenamedFileIsBoundTwice()
    ensures var e := Run(INIT, TearAfter([RenameFile("a", "c")]));
            && e.pc.Idle?
            && "a" in e.tables.names && "c" in e.tables.names
            && e.tables.names["a"] == e.tables.names["c"]
  {
    RunBetween([RenameFile("a", "c")]);
    RunOne(STALE_LOG, RenameFile("a", "c"));
    var s := Next(STALE_LOG, RenameFile("a", "c"));
    RenamedA(s);
    hide Run, Next, BeforeB, Apply;
    RecoversToReplay(s);
    ReplayOfAB(Apply(s.tables, REC_B));
    BindsBoth(Apply(s.tables, REC_B));
    BindsB(s.tables);
  }

  lemma RenamedA(s: State)
    requires s == Next(STALE_LOG, RenameFile("a", "c"))
    ensures s.tables.names == map["c" := 1] && BeforeB(s) && Digest([1]) in s.durable
  {
    TablesOfA();
    RecALsn();
  }

  lemma BindsB(t: Tables)
    ensures Apply(t, REC_B).names == t.names["b" := 2]
  {
  }

  /** After a rollback and a prune, the pruned version returns behind the newer one: numbers no
      longer increase and `latest_version` falls below a listed number. */
  lemma PrunedVersionReturns()
    ensures var e := Run(INIT, TearAfter([RollbackFile("a", 1, 0), PruneVersions("a", 1)]));
            && e.pc.Idle? && 1 in e.tables.objects
            && e.tables.objects[1].latest == 1
            && |e.tables.objects[1].versions| == 2
            && e.tables.objects[1].versions[0].number == 2
            && e.tables.objects[1].versions[1].number == 1
  {
    var between := [RollbackFile("a", 1, 0), PruneVersions("a", 1)];
    RunBetween(between);
    assert between == [RollbackFile("a", 1, 0)] + [PruneVersions("a", 1)];
    RunConcat(STALE_LOG, [RollbackFile("a", 1, 0)], [PruneVersions("a", 1)]);
    RunOne(STALE_LOG, RollbackFile("a", 1, 0));
    var s1 := Next(STALE_LOG, RollbackFile("a", 1, 0));
    RunOne(s1, PruneVersions("a", 1));
    var s := Next(s1, PruneVersions("a", 1));
    hide Run;
    RolledBackA(s1);
    PrunedA(s1, s);
    RecoversToReplay(s);
    ReplayOfAB(Apply(s.tables, REC_B));
    ReturnsBehind(s.tables);
  }

  lemma RolledBackA(s1: State)
    requires s1 == Next(STALE_LOG, RollbackFile("a", 1, 0))
    ensures BeforeB(s1) && Digest([1]) in s1.durable
    ensures s1.tables.names == map["a" := 1]
    ensures s1.tables.objects == map[1 := Record(2, [Version(1, Digest([1]), 1, 0), Version(2, Digest([1]), 1, 0)])]
  {
    AfterRollback(STALE_LOG);
    TablesOfA();
    RecALsn();
    hide Next, Rollback, RolledBack, Apply, RecordFor, Committed;
    RollbackOfA(STALE_LOG.tables);
    NoneUsed(STALE_LOG.spec, STALE_LOG.h);
  }

  lemma AfterRollback(s: State)
    requires s.pc.Idle?
    ensures Next(s, RollbackFile("a", 1, 0)) ==
            s.(tables := Rollback(s.tables, "a", 1, 0), spec := Rollback(s.spec, "a", 1, 0),
               h := RolledBack(s.spec, s.h, "a", 1))
  {
    hide Rollback, RolledBack;
  }

  lemma NoneUsed(t: Tables, h: History)
    ensures RolledBack(t, h, "a", 1).used == h.used
  {
    hide Rollback;
  }

  lemma RollbackOfA(t: Tables)
    requires t.names == map["a" := 1] && t.objects == map[1 := Record(1, [Version(1, Digest([1]), 1, 0)])]
    requires Digest([1]) in t.manifests
    ensures var after := Rollback(t, "a", 1, 0);
            && after.names == t.names
            && after.objects == map[1 := Record(2, [Version(1, Digest([1]), 1, 0), Version(2, Digest([1]), 1, 0)])]
  {
    OnlyVersion();
    hide FindVersion, NextNumber;
    assert [Version(1, Digest([1]), 1, 0)] + [Version(2, Digest([1]), 1, 0)] ==
           [Version(1, Digest([1]), 1, 0), Version(2, Digest([1]), 1, 0)];
  }

  lemma OnlyVersion()
    ensures var vs := [Version(1, Digest([1]), 1, 0)];
            FindVersion(vs, 1) == 0 && NextNumber(Record(1, vs)) == 2
  {
    var vs := [Version(1, Digest([1]), 1, 0)];
    assert vs[..0] == [];
    assert MaxNumber(vs) == 1;
  }

  lemma PrunedA(s1: State, s: State)
    requires s1.pc.Idle? && s == Next(s1, PruneVersions("a", 1)) && BeforeB(s1)
    requires Digest([1]) in s1.durable && s1.tables.names == map["a" := 1]
    requires s1.tables.objects == map[1 := Record(2, [Version(1, Digest([1]), 1, 0), Version(2, Digest([1]), 1, 0)])]
    ensures BeforeB(s) && Digest([1]) in s.durable
    ensures s.tables.objects == map[1 := Record(2, [Version(2, Digest([1]), 1, 0)])]
  {
  }

  lemma ReturnsBehind(t: Tables)
    requires t.objects == map[1 := Record(2, [Version(2, Digest([1]), 1, 0)])]
    ensures var o := Apply(Apply(Apply(t, REC_B), REC_A), REC_B).objects;
            1 in o && o[1] == Record(1, [Version(2, Digest([1]), 1, 0), Version(1, Digest([1]), 1, 0)])
  {
    RecALsn();
    var b := Version(1, Digest([2]), 1, 0);
    var t1 := Apply(t, REC_B);
    assert t1.objects == t.objects[2 := Record(1, [b])] by { assert [] + [b] == [b]; }
    var t2 := Apply(t1, REC_A);
    assert t2.objects[1] == Record(1, [Version(2, Digest([1]), 1, 0), Version(1, Digest([1]), 1, 0)]);
    assert t2.objects[2].versions[0].number == 1;
  }

  /** If the deleted file's chunk was also collected, the store cannot be opened again. */
  function DeleteAndCollect(): seq<Event> {
    [DeleteFile("a"), StartGc, SweepManifest(Digest([1]))] + Again(1)
  }

  lemma CollectedA()
    ensures var s := Run(STALE_LOG, DeleteAndCollect()); BeforeB(s) && s.written == map[]
  {
    var s1 := Next(STALE_LOG, DeleteFile("a"));
    var s2 := Next(s1, StartGc);
    var s3 := Next(s2, SweepManifest(Digest([1])));
    MarkedA(s1);
    CompactedA(s2, s3);
    hide Run, Next;
    RunConcat(STALE_LOG, [DeleteFile("a"), StartGc, SweepManifest(Digest([1]))], Again(1));
    RunThree(STALE_LOG, DeleteFile("a"), StartGc, SweepManifest(Digest([1])));
    RunAgain(s3, 1);
    OneStep(s3);
  }

  lemma MarkedA(s1: State)
    requires s1 == Next(STALE_LOG, DeleteFile("a"))
    ensures var s2 := Next(s1, StartGc);
            && s2.pc == Sweeping(1, {Digest([1])}, {})
            && s2 == STALE_LOG.(tables := s2.tables, spec := s2.spec, pc := s2.pc)
            && s2.tables.names == map[] && s2.spec.names == map[]
  {
    TablesOfA();
    RecALsn();
    assert s1.tables.objects == map[] && s1.tables.snapshots == map[];
    assert DeadManifests(s1.tables) == {Digest([1])};
    assert LiveChunks(s1.tables) == {};
  }

  lemma CompactedA(s2: State, s3: State)
    requires s2.pc == Sweeping(1, {Digest([1])}, {}) && s3 == Next(s2, SweepManifest(Digest([1])))
    requires s2 == STALE_LOG.(tables := s2.tables, spec := s2.spec, pc := s2.pc)
    requires s2.tables.names == map[] && s2.spec.names == map[]
    ensures BeforeB(StepOf(s3)) && StepOf(s3).written == map[]
  {
    TablesOfA();
    RecALsn();
    assert s3.pc == Sweeping(1, {}, {});
    assert Keep(s3.written, {}) == map[];
  }

  lemma CollectedChunkBlocksOpening()
    ensures Run(INIT, TearAfter(DeleteAndCollect())).pc.Failed?
  {
    RunBetween(DeleteAndCollect());
    CollectedA();
    var s := Run(STALE_LOG, DeleteAndCollect());
    RunTear(s);
    TornB(s, {});
    RecALsn();
    hide Run, OpenOf, CrashOf, Torn, Apply, BeforeB, Steps;
    FailsAtOnce(OpenOf(CrashOf(Torn(s, JOB_B), {})));
  }

  lemma FailsAtOnce(d: State)
    requires d.pc == Applying(2, [REC_A, REC_B], 0, 0, 2, true)
    requires REC_A.manifest.chunks == [Digest([1])] && Digest([1]) !in d.written
    ensures Steps(d, 10).pc.Failed?
  {
    hide Steps, Apply, Stage;
    assert REC_A.manifest.chunks[0] !in d.written;
    assert StepOf(d).pc.Failed?;
    StepsAdd(d, 1, 9);
    OneStep(d);
    FailedStays(StepOf(d), 9);
  }
}
