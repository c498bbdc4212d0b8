/** The engine's promises, stated over whole runs, and the exact condition under which a torn
    checkpoint file keeps them. */
module EngineTheorems {
  import opened Basics
  import opened Catalog
  import opened Versions
  import opened Engine
  import opened EngineSafety
  import opened EngineAtomicity

  // ---------------------------------------------------------------- between operations

  /** Whenever the engine is ready, its tables are those of the atomic execution, versions are
      strictly increasing and bounded, no number was ever reused, and names bind distinct, existing
      objects. */
  lemma ReadyStateIsExact(events: seq<Event>)
    requires var s := Run(INIT, events); s.pc.Idle? && !s.hazard
    ensures var s := Run(INIT, events); s.tables == s.spec && WellFormed(s.tables, s.h)
  {
    RunExact(events);
  }

  /** Opening never takes the missing-chunk error: every pending record's chunks are durable. */
  lemma OpenNeverFails(events: seq<Event>)
    requires !Run(INIT, events).hazard
    ensures var s := Run(INIT, events);
            && !s.pc.Failed?
            && (s.pc.Down? ==> LogChunksIn(Pending(s.log, s.ckpt), s.durable))
  {
    RunExact(events);
  }

  /** Every version still listed extracts to the bytes it was put with (a rolled-back version: to
      the bytes of the version it repeats). */
  lemma ListedVersionsHoldOriginalBytes(events: seq<Event>, id: ObjectId, i: nat)
    requires var s := Run(INIT, events); s.pc.Idle? && !s.hazard
    requires var s := Run(INIT, events); id in s.tables.objects && i < |s.tables.objects[id].versions|
    ensures var s := Run(INIT, events);
            var v := s.tables.objects[id].versions[i];
            && (id, v.number) in s.h.origin
            && Extract(s.tables, s.written, v.manifest) == Some(s.h.origin[(id, v.number)])
  {
    var s := Run(INIT, events);
    ReadyStateIsExact(events);
    RunSound(events);
    hide Sound, Run;
    ListedVersionsExtract(s, id, i);
    assert RecordOk(id, s.tables.objects[id], s.h);
    assert VersionOk(id, s.tables.objects[id].versions[i], s.tables.objects[id].latest, s.h);
  }

  // ---------------------------------------------------------------- an interrupted put

  predicate Unattended(ev: Event) {
    ev.Step? || ev.Crash? || ev.Open?
  }

  predicate AllUnattended(events: seq<Event>) {
    forall i :: 0 <= i < |events| ==> Unattended(events[i])
  }

  /** The tables after the put, with whatever log sequence number it got. */
  ghost predicate AfterPut(t: Tables, before: Tables, job: Job) {
    NameResolves(before, job.name) && exists lsn :: t == Apply(before, RecordFor(before, job, lsn))
  }

  ghost predicate PutOutcome(s: State, before: Tables, job: Job) {
    || (s.spec == before && (s.pc.Writing? || s.pc.Synced? ==> s.pc.job == job))
    || (AfterPut(s.spec, before, job) && !s.pc.Writing? && !s.pc.Synced?)
  }

  lemma PutOutcomeStep(s: State, ev: Event, before: Tables, job: Job)
    requires Sound(s) && Exact(s) && PutOutcome(s, before, job) && Unattended(ev)
    ensures PutOutcome(Next(s, ev), before, job)
  {
    hide Sound, WellFormed, Apply, RecordFor, Stage;
    if s.pc.Synced? && ev.Step? {
      CommitStepExact(s);
      assert s.tables == before;
      assert Next(s, ev).spec == Apply(before, RecordFor(before, job, s.pc.current + 1));
    }
  }

  lemma {:induction false} UnattendedRun(s: State, events: seq<Event>, before: Tables, job: Job)
    requires Sound(s) && Exact(s) && PutOutcome(s, before, job) && AllUnattended(events)
    requires !Run(s, events).hazard
    ensures var e := Run(s, events); Sound(e) && Exact(e) && PutOutcome(e, before, job)
  {
    if events != [] {
      hide Sound, Exact, PutOutcome, Next;
      var init, last := events[..|events| - 1], events[|events| - 1];
      HazardStays(Run(s, init), last);
      UnattendedRun(s, init, before, job);
      NextSound(Run(s, init), last);
      NextExact(Run(s, init), last);
      PutOutcomeStep(Run(s, init), last, before, job);
    }
  }

  /** A put in progress, then any steps, crashes and reopenings: once the engine is ready again its
      tables are exactly those before the put or exactly those after it. */
  lemma InterruptedPutIsAllOrNothing(s: State, events: seq<Event>)
    requires Sound(s) && Exact(s) && (s.pc.Writing? || s.pc.Synced?) && AllUnattended(events)
    requires var e := Run(s, events); !e.hazard && e.pc.Idle?
    ensures var e := Run(s, events); e.tables == s.tables || AfterPut(e.tables, s.tables, s.pc.job)
  {
    UnattendedRun(s, events, s.tables, s.pc.job);
  }

  /** Once the WAL record was fsynced, the outcome is the committed one. */
  lemma {:induction false} CommittedPutSurvives(s: State, events: seq<Event>)
    requires Sound(s) && Exact(s) && !s.pc.Writing? && !s.pc.Synced? && AllUnattended(events)
    requires !Run(s, events).hazard
    ensures var e := Run(s, events);
            && Sound(e) && Exact(e) && e.spec == s.spec && !e.pc.Writing? && !e.pc.Synced?
            && (e.pc.Idle? ==> e.tables == s.spec)
  {
    if events != [] {
      var init, last := events[..|events| - 1], events[|events| - 1];
      HazardStays(Run(s, init), last);
      CommittedPutSurvives(s, init);
      KeepsSpec(Run(s, init), last);
      NextSound(Run(s, init), last);
      NextExact(Run(s, init), last);
      hide Sound, WellFormed;
    }
  }

  /** Steps after the commit point leave the history alone. */
  lemma StepKeepsSpec(s: State)
    requires !s.pc.Writing? && !s.pc.Synced?
    ensures var e := StepOf(s);
            && e.spec == s.spec && e.hazard == s.hazard && !e.pc.Writing? && !e.pc.Synced?
            && (e.log == s.log || e.log == [])
            && (!s.pc.Sweeping? ==> !e.pc.Sweeping? && (e.durable == s.durable || e.durable == s.written.Keys))
  {
    hide Stage, ChunksIn, Keep;
    match s.pc
    case Applying(_, _, _, _, _, _) =>
    case Checkpoint(_, _, _) =>
    case Sweeping(_, _, _) =>
    case _ =>
  }

  lemma OpenKeepsSpec(s: State)
    ensures var e := OpenOf(s);
            && e == s.(pc := e.pc) && !e.pc.Writing? && !e.pc.Synced? && !e.pc.Sweeping?
  {
  }

  lemma KeepsSpec(s: State, ev: Event)
    requires Unattended(ev) && !s.pc.Writing? && !s.pc.Synced?
    ensures var e := Next(s, ev); e.spec == s.spec && !e.pc.Writing? && !e.pc.Synced?
  {
    hide StepOf, OpenOf, TornCheckpointIsHarmless;
    StepKeepsSpec(s);
    OpenKeepsSpec(s);
  }

  // ---------------------------------------------------------------- runs of puts alone

  predicate PutsOnly(events: seq<Event>) {
    forall i :: 0 <= i < |events| ==> Unattended(events[i]) || events[i].Put?
  }

  /** With puts alone the whole log, checkpointed records included, stays in force. */
  ghost predicate LogSettled(s: State) {
    !s.pc.Sweeping? && Replay(s.spec, s.log) == s.spec && LogChunksIn(s.log, s.durable)
  }

  lemma CommitSettles(s: State)
    requires Sound(s) && Exact(s) && LogSettled(s) && s.pc.Synced?
    ensures LogSettled(CommitStep(s))
  {
    hide Sound, WellFormed, Apply, RecordFor, Replay, ChunksIn;
    CommitStepExact(s);
    var lsn := s.pc.current + 1;
    ApplyKeepsInForce(s.spec, s.log, RecordFor(s.tables, s.pc.job, lsn));
    RecordForIds(s.tables, s.pc.job, lsn);
    PartsAreDurable(s);
  }

  lemma CrashSettled(s: State, keep: set<Digest>)
    requires Exact(s) && LogSettled(s)
    ensures !CrashOf(s, keep).hazard && LogSettled(CrashOf(s, keep))
  {
    hide WellFormed, InForce, Replay, ChunksIn, Pending, Progress;
    InForceIffUnchanged(s.tables, s.log);
  }

  lemma LogSettledStep(s: State, ev: Event)
    requires Sound(s) && Exact(s) && LogSettled(s) && (Unattended(ev) || ev.Put?)
    ensures !Next(s, ev).hazard && LogSettled(Next(s, ev))
  {
    if ev.Crash? {
      CrashSettled(s, ev.keep);
    } else if ev.Step? && s.pc.Synced? {
      CommitSettles(s);
    } else {
      DurableIsWritten(s);
      ChunksGrow(s.log, s.durable, s.written.Keys);
      hide Sound, PcExact, WellFormed, LogChunksIn, StepOf, OpenOf;
      if ev.Step? && s.pc.Writing? {
        WritingKeepsLog(s);
      } else if ev.Step? {
        StepKeepsSpec(s);
        assert LogChunksIn([], StepOf(s).durable) by { NoChunks(StepOf(s).durable); }
      } else {
        OpenKeepsSpec(s);
      }
    }
  }

  lemma NoChunks(store: set<Digest>)
    ensures LogChunksIn([], store)
  {
  }

  lemma WritingKeepsLog(s: State)
    requires s.pc.Writing?
    ensures var e := StepOf(s);
            && e.spec == s.spec && e.hazard == s.hazard && e.log == s.log && !e.pc.Sweeping?
            && (e.durable == s.durable || e.durable == s.written.Keys)
  {
  }

  lemma DurableIsWritten(s: State)
    requires Sound(s)
    ensures s.durable <= s.written.Keys
  {
  }

  /** In runs of puts, crashes and reopenings the hazard never arises: every crash point, torn
      checkpoints and crashes inside recovery included, is absorbed. */
  lemma {:induction false} PutRunsMeetNoHazard(events: seq<Event>)
    requires PutsOnly(events)
    ensures var s := Run(INIT, events); !s.hazard && Exact(s) && LogSettled(s)
  {
    if events == [] {
      InitExact();
    } else {
      hide Sound, Exact, LogSettled, Next;
      var init, last := events[..|events| - 1], events[|events| - 1];
      PutRunsMeetNoHazard(init);
      RunSound(init);
      LogSettledStep(Run(INIT, init), last);
      NextExact(Run(INIT, init), last);
    }
  }

  // ---------------------------------------------------------------- the torn checkpoint, exactly

  function Steps(s: State, n: nat): State
    decreases n
  {
    if n == 0 then s else Steps(StepOf(s), n - 1)
  }

  /** A recovery in progress that will end in `goal`, or has ended there. */
  predicate Heading(s: State, goal: Tables) {
    match s.pc
    case Applying(_, recs, k, stage, _, replay) =>
      replay && k <= |recs| && stage < 3 && Rest(s.tables, recs, k, stage) == goal
    case Checkpoint(_, _, _) => s.tables == goal
    case Idle(_) => s.tables == goal
    case Failed => true
    case _ => false
  }

  lemma HeadingStep(s: State, goal: Tables)
    requires Heading(s, goal)
    ensures Heading(StepOf(s), goal)
  {
    hide Stage, ChunksIn;
  }

  lemma {:induction false} HeadingStays(s: State, goal: Tables, n: nat)
    requires Heading(s, goal)
    ensures Heading(Steps(s, n), goal)
    decreases n
  {
    if n > 0 {
      hide Heading, StepOf;
      HeadingStep(s, goal);
      HeadingStays(StepOf(s), goal, n - 1);
    }
  }

  lemma OpenHeads(s: State)
    ensures Heading(OpenOf(s), Replay(s.tables, Pending(s.log, s.ckpt)))
  {
    hide MaxLsn, Apply, Stage, Pending, Replay, Rest;
    var pending := Pending(s.log, s.ckpt);
    ReplayNothing(s.tables);
    RestIsReplay(s.tables, pending, 0);
    assert pending[0..] == pending;
  }

  /** How many steps an application of records still takes, checkpoint included. */
  function StepsLeft(s: State): int
    requires s.pc.Applying?
  {
    3 * (|s.pc.recs| - s.pc.k) - s.pc.stage + 4
  }

  /** An undisturbed replay ends: ready if the chunks of its records are there, failed or ready if not. */
  lemma {:induction false} ReplayFinishes(s: State)
    requires Underway(s)
    ensures StepsLeft(s) >= 0
    ensures var e := Steps(s, StepsLeft(s));
            (e.pc.Idle? || e.pc.Failed?) && (LogChunksIn(s.pc.recs, s.written.Keys) ==> e.pc.Idle?)
    decreases |s.pc.recs| - s.pc.k, 3 - s.pc.stage
  {
    ReplayStep(s);
    hide StepOf, LogChunksIn, Underway;
    var s1 := StepOf(s);
    if s1.pc.Failed? {
      FailedStays(s1, StepsLeft(s) - 1);
    } else if s1.pc.Applying? {
      ReplayFinishes(s1);
    } else {
      CheckpointFinishes(s1);
    }
  }

  predicate Underway(s: State) {
    s.pc.Applying? && s.pc.k <= |s.pc.recs| && s.pc.stage < 3 && (s.pc.stage > 0 ==> s.pc.k < |s.pc.recs|)
  }

  /** One transaction further, over the same records and chunks. */
  predicate Advances(s: State, e: State)
    requires Underway(s)
  {
    && Underway(e) && e.pc.recs == s.pc.recs && e.written == s.written && StepsLeft(e) == StepsLeft(s) - 1
    && (e.pc.k > s.pc.k || (e.pc.k == s.pc.k && e.pc.stage > s.pc.stage))
  }

  lemma ReplayStep(s: State)
    requires Underway(s)
    ensures StepsLeft(s) >= 4
    ensures var e := StepOf(s);
            && (LogChunksIn(s.pc.recs, s.written.Keys) ==> !e.pc.Failed?)
            && (e.pc.Failed? || if s.pc.k == |s.pc.recs| then e.pc.Checkpoint? && e.pc.phase == 0 && StepsLeft(s) == 4
                                else Advances(s, e))
  {
    hide Stage, ChunksIn;
  }

  lemma {:induction false} FailedStays(s: State, n: nat)
    requires s.pc.Failed?
    ensures Steps(s, n) == s
    decreases n
  {
    if n > 0 { FailedStays(s, n - 1); }
  }

  lemma CheckpointFinishes(s: State)
    requires s.pc.Checkpoint? && s.pc.phase == 0
    ensures Steps(s, 3).pc.Idle?
  {
  }

  // ---------------------------------------------------------------- exactly when a store opens

  /** A recovery over the chunks `store`: the records it has passed had their chunks, and it failed or
      finished accordingly. */
  predicate Checked(s: State, recs: seq<PutRec>, store: set<Digest>) {
    && s.written.Keys == store
    && match s.pc
       case Applying(_, rs, k, stage, _, replay) =>
         && replay && rs == recs && k <= |recs| && stage < 3 && (stage > 0 ==> k < |recs|)
         && LogChunksIn(recs[..if stage > 0 then k + 1 else k], store)
       case Checkpoint(_, _, _) => LogChunksIn(recs, store)
       case Idle(_) => LogChunksIn(recs, store)
       case Failed => !LogChunksIn(recs, store)
       case _ => false
  }

  lemma OneMoreChecked(recs: seq<PutRec>, k: nat, store: set<Digest>)
    requires k < |recs|
    ensures LogChunksIn(recs[..k], store) && ChunksIn(recs[k].manifest, store) ==> LogChunksIn(recs[..k + 1], store)
    ensures !ChunksIn(recs[k].manifest, store) ==> !LogChunksIn(recs, store)
  {
    hide ChunksIn;
    assert recs[..k + 1] == recs[..k] + [recs[k]];
  }

  lemma CheckedStep(s: State, recs: seq<PutRec>, store: set<Digest>)
    requires Checked(s, recs, store)
    ensures Checked(StepOf(s), recs, store)
  {
    hide Stage, ChunksIn, LogChunksIn;
    if s.pc.Applying? {
      if s.pc.k < |recs| { OneMoreChecked(recs, s.pc.k, store); }
      assert recs[..|recs|] == recs;
    }
  }

  lemma {:induction false} CheckedStays(s: State, recs: seq<PutRec>, store: set<Digest>, n: nat)
    requires Checked(s, recs, store)
    ensures Checked(Steps(s, n), recs, store)
    decreases n
  {
    if n > 0 {
      hide Checked, StepOf;
      CheckedStep(s, recs, store);
      CheckedStays(StepOf(s), recs, store, n - 1);
    }
  }

  ghost predicate Opens(s: State) {
    exists n: nat :: Steps(OpenOf(s), n).pc.Idle?
  }

  ghost predicate OpensWith(s: State, goal: Tables) {
    exists n: nat :: Steps(OpenOf(s), n).pc.Idle? && Steps(OpenOf(s), n).tables == goal
  }

  /** In any state whatever, opening completes if and only if every pending record's chunks are in the
      segments, and then ends in the replay of the pending records; otherwise it fails. */
  lemma OpensIff(s: State)
    ensures var pending := Pending(s.log, s.ckpt);
            Opens(s) <==> LogChunksIn(pending, s.written.Keys)
    ensures Opens(s) <==> !exists n: nat :: Steps(OpenOf(s), n).pc.Failed?
    ensures Opens(s) ==> OpensWith(s, Replay(s.tables, Pending(s.log, s.ckpt)))
    ensures forall goal :: OpensWith(s, goal) ==> goal == Replay(s.tables, Pending(s.log, s.ckpt))
  {
    hide Pending, MaxLsn, Replay, Steps, ChunksIn;
    var pending, o := Pending(s.log, s.ckpt), OpenOf(s);
    var goal := Replay(s.tables, pending);
    OpenHeads(s);
    forall n: nat
      ensures Checked(Steps(o, n), pending, s.written.Keys)
      ensures Steps(o, n).pc.Idle? ==> Steps(o, n).tables == goal
    {
      CheckedStays(o, pending, s.written.Keys, n);
      HeadingStays(o, goal, n);
    }
    if pending == [] { StepsNone(o); } else { ReplayFinishes(o); }
  }

  lemma StepsNone(s: State)
    ensures Steps(s, 0) == s
  {
  }

  /** After a crash that left the checkpoint file truncated: the store opens if and only if the chunks of
      every record left in the log are still there, and it opens with the committed tables if and only if,
      besides, every such record is still in force. */
  lemma TornCheckpointIsExact(s: State, keep: set<Digest>)
    requires Exact(s) && s.pc.Checkpoint? && s.pc.phase == 1
    ensures var c := CrashOf(s, keep);
            && (Opens(c) <==> LogChunksIn(s.log, c.written.Keys))
            && (OpensWith(c, s.spec) <==> InForce(s.tables, s.log) && LogChunksIn(s.log, c.written.Keys))
  {
    hide WellFormed, InForce, Steps, Replay, OpenOf, TornCheckpointIsHarmless, Opens, OpensWith, Keep, LogChunksIn;
    var c := CrashOf(s, keep);
    assert c.log == s.log && c.ckpt == 0 && c.tables == s.tables && s.spec == s.tables;
    PendingAll(s.log);
    OpensIff(c);
    OpensWithOpens(c, s.spec);
    InForceIffUnchanged(s.tables, s.log);
  }

  lemma OpensWithOpens(s: State, goal: Tables)
    ensures OpensWith(s, goal) ==> Opens(s)
  {
    hide Steps, OpenOf;
  }

  /** The flag `hazard` is set by exactly the crashes that can go wrong: a torn checkpoint is harmless if
      and only if the store opens with the committed tables whichever unsynced chunks survive. */
  lemma HazardIsExact(s: State)
    requires Sound(s) && Exact(s) && s.pc.Checkpoint? && s.pc.phase == 1
    ensures TornCheckpointIsHarmless(s) <==> forall keep :: OpensWith(CrashOf(s, keep), s.spec)
  {
    DurableIsWritten(s);
    hide Sound, Exact, InForce, OpensWith, CrashOf, ChunksIn;
    forall keep
      ensures OpensWith(CrashOf(s, keep), s.spec) <==>
                InForce(s.tables, s.log) && LogChunksIn(s.log, CrashOf(s, keep).written.Keys)
      ensures LogChunksIn(s.log, s.durable) ==> LogChunksIn(s.log, CrashOf(s, keep).written.Keys)
    {
      TornCheckpointIsExact(s, keep);
      CrashKeepsDurable(s, keep);
      if LogChunksIn(s.log, s.durable) { ChunksGrow(s.log, s.durable, CrashOf(s, keep).written.Keys); }
    }
    CrashKeepsDurable(s, {});
  }

  lemma CrashKeepsDurable(s: State, keep: set<Digest>)
    requires s.durable <= s.written.Keys
    ensures s.durable <= CrashOf(s, keep).written.Keys <= s.durable + keep
  {
    hide TornCheckpointIsHarmless;
  }

  /** From every crash of a run that met no such checkpoint the store opens, with the committed tables. */
  lemma RecoveryCompletes(events: seq<Event>)
    requires var s := Run(INIT, events); s.pc.Down? && !s.hazard
    ensures var s := Run(INIT, events); OpensWith(s, s.spec)
  {
    var s := Run(INIT, events);
    RunExact(events);
    RunSound(events);
    DurableIsWritten(s);
    ChunksGrow(Pending(s.log, s.ckpt), s.durable, s.written.Keys);
    hide Run, Sound, WellFormed, Opens, OpensWith, Replay, Pending, LogChunksIn;
    OpensIff(s);
  }
}
