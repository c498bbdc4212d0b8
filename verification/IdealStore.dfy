/** The store as its user sees it: files with numbered contents, names and pictures of them. No manifests,
    chunks, logs or record lists; each operation is said by what it does to contents. Whatever crashes
    happen, the engine is this store. */
module IdealStore {
  import opened Basics
  import opened Catalog
  import opened Versions
  import opened Engine
  import opened EngineSafety
  import opened EngineAtomicity
  import opened EngineTheorems

  datatype Kept = Kept(bytes: Bytes, at: nat)
  datatype File = File(latest: nat, versions: map<nat, Kept>)
  datatype Saved = Saved(id: ObjectId, number: nat, bytes: Bytes)

  datatype Ideal = Ideal(
    files: map<ObjectId, File>,
    names: map<Name, ObjectId>,
    pictures: map<Label, map<Name, Saved>>)

  const NOTHING := Ideal(map[], map[], map[])

  // ---------------------------------------------------------------- the operations

  function Grown(f: File, bytes: Bytes, at: nat): File {
    File(f.latest + 1, f.versions[f.latest + 1 := Kept(bytes, at)])
  }

  function AddVersion(i: Ideal, name: Name, bytes: Bytes, newId: ObjectId, at: nat): Ideal {
    var id := if name in i.names then i.names[name] else newId;
    var f := if id in i.files then i.files[id] else File(0, map[]);
    i.(files := i.files[id := Grown(f, bytes, at)], names := i.names[name := id])
  }

  function RepeatVersion(i: Ideal, name: Name, number: nat, at: nat): Ideal {
    if name in i.names && i.names[name] in i.files && number in i.files[i.names[name]].versions then
      var f := i.files[i.names[name]];
      i.(files := i.files[i.names[name] := Grown(f, f.versions[number].bytes, at)])
    else i
  }

  /** The numbers above this one. */
  function Newer(versions: map<nat, Kept>, number: nat): set<nat> {
    set m | m in versions && m > number
  }

  /** Keep the contents that have fewer than `keep` newer ones. */
  function KeepNewest(i: Ideal, name: Name, keep: nat): Ideal {
    if name in i.names && i.names[name] in i.files then
      var f := i.files[i.names[name]];
      i.(files := i.files[i.names[name] :=
           File(f.latest, map n | n in f.versions && |Newer(f.versions, n)| < keep :: f.versions[n])])
    else i
  }

  function MoveName(i: Ideal, from: Name, to: Name): Ideal {
    if from in i.names then
      i.(names := map n | n in i.names.Keys - {from} + {to} :: if n == to then i.names[from] else i.names[n])
    else i
  }

  function DropName(i: Ideal, name: Name): Ideal {
    i.(names := map n | n in i.names && n != name :: i.names[n])
  }

  function EraseFile(i: Ideal, name: Name): Ideal {
    if name in i.names then
      DropName(i, name).(files := map id | id in i.files && id != i.names[name] :: i.files[id])
    else i
  }

  ghost predicate IsHighest(versions: map<nat, Kept>, n: nat) {
    n in versions && forall m :: m in versions ==> m <= n
  }

  /** The highest number of a file that has contents. */
  ghost function Highest(versions: map<nat, Kept>): (n: nat)
    requires versions != map[]
    ensures IsHighest(versions, n)
  {
    HighestExists(versions);
    var n :| IsHighest(versions, n);
    n
  }

  lemma HighestExists(versions: map<nat, Kept>)
    requires versions != map[]
    ensures exists n :: IsHighest(versions, n)
  {
    var k :| k in versions;
    var n, seen := k, {k};
    while seen != versions.Keys
      invariant n in versions && seen <= versions.Keys && forall m :: m in seen ==> m <= n
      decreases versions.Keys - seen
    {
      var m :| m in versions && m !in seen;
      if m > n { n := m; }
      seen := seen + {m};
    }
    assert IsHighest(versions, n);
  }

  /** Every name with a file that has contents, with its newest. */
  ghost function TakePicture(i: Ideal, tag: Label): Ideal {
    if tag == "" || tag in i.pictures then i
    else i.(pictures := i.pictures[tag := map n | n in i.names && Shown(i, n) :: Newest(i, n)])
  }

  predicate Shown(i: Ideal, n: Name) {
    n in i.names && i.names[n] in i.files && i.files[i.names[n]].versions != map[]
  }

  ghost function Newest(i: Ideal, n: Name): Saved
    requires Shown(i, n)
  {
    var versions := i.files[i.names[n]].versions;
    Saved(i.names[n], Highest(versions), versions[Highest(versions)].bytes)
  }

  function DropPicture(i: Ideal, tag: Label): Ideal {
    i.(pictures := map t | t in i.pictures && t != tag :: i.pictures[t])
  }

  // ---------------------------------------------------------------- what tables stand for

  function VersionsSeen(vs: seq<Version>): map<nat, Kept> {
    if vs == [] then map[]
    else
      var v := vs[|vs| - 1];
      VersionsSeen(vs[..|vs| - 1])[v.number := Kept(v.manifest.data, v.createdAt)]
  }

  function FileSeen(record: Record): File {
    File(record.latest, VersionsSeen(record.versions))
  }

  function PictureSeen(entries: map<Name, Entry>): map<Name, Saved> {
    map n | n in entries :: Saved(entries[n].id, entries[n].number, entries[n].manifest.data)
  }

  function FilesSeen(objects: map<ObjectId, Record>): map<ObjectId, File> {
    map id | id in objects :: FileSeen(objects[id])
  }

  function PicturesSeen(snapshots: map<Label, map<Name, Entry>>): map<Label, map<Name, Saved>> {
    map tag | tag in snapshots :: PictureSeen(snapshots[tag])
  }

  function Seen(t: Tables): Ideal {
    Ideal(FilesSeen(t.objects), t.names, PicturesSeen(t.snapshots))
  }

  lemma OneFile(objects: map<ObjectId, Record>, id: ObjectId, record: Record)
    ensures FilesSeen(objects[id := record]) == FilesSeen(objects)[id := FileSeen(record)]
    ensures id in objects <==> id in FilesSeen(objects)
    ensures id in objects ==> FilesSeen(objects)[id] == FileSeen(objects[id])
  {
    hide FileSeen;
  }

  lemma OnePicture(snapshots: map<Label, map<Name, Entry>>, tag: Label, entries: map<Name, Entry>)
    ensures PicturesSeen(snapshots[tag := entries]) == PicturesSeen(snapshots)[tag := PictureSeen(entries)]
    ensures tag in snapshots <==> tag in PicturesSeen(snapshots)
  {
    hide PictureSeen;
  }

  // ---------------------------------------------------------------- lists and maps of versions

  lemma {:induction false} SeenAt(vs: seq<Version>, i: nat)
    requires Increasing(vs) && i < |vs|
    ensures vs[i].number in VersionsSeen(vs)
    ensures VersionsSeen(vs)[vs[i].number] == Kept(vs[i].manifest.data, vs[i].createdAt)
  {
    if i < |vs| - 1 { SeenAt(vs[..|vs| - 1], i); }
  }

  lemma {:induction false} SeenFrom(vs: seq<Version>, n: nat) returns (i: nat)
    requires n in VersionsSeen(vs)
    ensures i < |vs| && vs[i].number == n
  {
    var last := |vs| - 1;
    if vs[last].number == n { i := last; } else { i := SeenFrom(vs[..last], n); }
  }

  lemma SeenMore(vs: seq<Version>, v: Version)
    ensures VersionsSeen(vs + [v]) == VersionsSeen(vs)[v.number := Kept(v.manifest.data, v.createdAt)]
  {
    assert (vs + [v])[..|vs|] == vs;
  }

  /** The last of an increasing list is the highest. */
  lemma LastIsHighest(vs: seq<Version>)
    requires Increasing(vs) && vs != []
    ensures VersionsSeen(vs) != map[] && Highest(VersionsSeen(vs)) == vs[|vs| - 1].number
    ensures VersionsSeen(vs)[vs[|vs| - 1].number].bytes == vs[|vs| - 1].manifest.data
  {
    var last := |vs| - 1;
    SeenAt(vs, last);
    var i := SeenFrom(vs, Highest(VersionsSeen(vs)));
  }

  lemma {:induction false} NewerCount(vs: seq<Version>, i: nat)
    requires Increasing(vs) && i < |vs|
    ensures |Newer(VersionsSeen(vs), vs[i].number)| == |vs| - 1 - i
    decreases |vs| - i
  {
    var newer := Newer(VersionsSeen(vs), vs[i].number);
    if i == |vs| - 1 {
      forall m | m in newer ensures false { var j := SeenFrom(vs, m); }
      assert newer == {};
    } else {
      NewerCount(vs, i + 1);
      SeenAt(vs, i + 1);
      var rest := Newer(VersionsSeen(vs), vs[i + 1].number);
      forall m | m in newer ensures m in rest || m == vs[i + 1].number { var j := SeenFrom(vs, m); }
      assert newer == rest + {vs[i + 1].number};
    }
  }

  /** Keeping the end of an increasing list keeps the newest contents. */
  lemma SuffixSeen(vs: seq<Version>, keep: nat)
    requires Increasing(vs) && keep <= |vs|
    ensures var all := VersionsSeen(vs);
            VersionsSeen(vs[|vs| - keep..]) == map n | n in all && |Newer(all, n)| < keep :: all[n]
  {
    hide VersionsSeen, Newer, Increasing;
    var all, some := VersionsSeen(vs), VersionsSeen(vs[|vs| - keep..]);
    forall n ensures n in some <==> n in all && |Newer(all, n)| < keep
             ensures n in some ==> some[n] == all[n] {
      if n in some { EndIsNew(vs, |vs| - keep, n); }
      if n in all && |Newer(all, n)| < keep { NewIsEnd(vs, |vs| - keep, n); }
    }
  }

  lemma EndIsNew(vs: seq<Version>, d: nat, n: nat)
    requires Increasing(vs) && d <= |vs| && n in VersionsSeen(vs[d..])
    ensures var all := VersionsSeen(vs);
            n in all && |Newer(all, n)| < |vs| - d && VersionsSeen(vs[d..])[n] == all[n]
  {
    hide VersionsSeen, Newer;
    assert Increasing(vs[d..]);
    var j := SeenFrom(vs[d..], n);
    SeenAt(vs[d..], j);
    SeenAt(vs, d + j);
    NewerCount(vs, d + j);
  }

  lemma NewIsEnd(vs: seq<Version>, d: nat, n: nat)
    requires Increasing(vs) && d <= |vs| && n in VersionsSeen(vs) && |Newer(VersionsSeen(vs), n)| < |vs| - d
    ensures n in VersionsSeen(vs[d..])
  {
    hide VersionsSeen, Newer;
    assert Increasing(vs[d..]);
    var j := SeenFrom(vs, n);
    NewerCount(vs, j);
    SeenAt(vs[d..], j - d);
  }

  lemma NoneTooMany(vs: seq<Version>, keep: nat)
    requires Increasing(vs) && |vs| <= keep
    ensures var all := VersionsSeen(vs); (map n | n in all && |Newer(all, n)| < keep :: all[n]) == all
  {
    forall n | n in VersionsSeen(vs) ensures |Newer(VersionsSeen(vs), n)| < keep {
      var j := SeenFrom(vs, n);
      NewerCount(vs, j);
    }
  }

  // ---------------------------------------------------------------- each operation does what it should

  lemma ListIsIncreasing(t: Tables, h: History, id: ObjectId)
    requires WellFormed(t, h) && id in t.objects
    ensures RecordOk(id, t.objects[id], h) && Increasing(t.objects[id].versions)
  {
  }

  /** A put adds the job's bytes as the next version of its name's file, and changes nothing else. */
  lemma PutSeen(t: Tables, h: History, job: Job, lsn: nat)
    requires WellFormed(t, h) && job.newId !in h.used
    ensures NameResolves(t, job.name)
    ensures Seen(Apply(t, RecordFor(t, job, lsn))) ==
            AddVersion(Seen(t), job.name, Concat(job.parts), job.newId, job.now)
  {
    hide WellFormed, Apply, RecordFor, FilesSeen, PicturesSeen, HasNumber, Concat, VersionsSeen;
    PutObjects(t, h, job, lsn);
    RecordForIsNew(t, h, job, lsn);
    RecordForIds(t, job, lsn);
    var r := RecordFor(t, job, lsn);
    var prior := RecordOr(t.objects, r);
    OneFile(t.objects, r.id, Record(r.number, prior.versions + [VersionOf(r)]));
    SeenMore(prior.versions, VersionOf(r));
    PutLeavesSnapshots(t, r);
    NoVersionsSeen();
  }

  lemma NoVersionsSeen()
    ensures VersionsSeen([]) == map[]
  {
  }

  lemma PutLeavesSnapshots(t: Tables, r: PutRec)
    ensures Apply(t, r).snapshots == t.snapshots
  {
  }

  /** Every listed manifest is stored. */
  ghost predicate AllStored(t: Tables) {
    forall id, i :: id in t.objects && 0 <= i < |t.objects[id].versions| ==>
        t.objects[id].versions[i].manifest in t.manifests
  }

  lemma RollbackSeen(t: Tables, h: History, name: Name, number: nat, now: nat)
    requires WellFormed(t, h) && AllStored(t)
    ensures Seen(Rollback(t, name, number, now)) == RepeatVersion(Seen(t), name, number, now)
  {
    hide WellFormed, Rollback, FilesSeen, PicturesSeen, VersionsSeen;
    if name in t.names {
      Resolves(t, h, name);
      var id := t.names[name];
      ListIsIncreasing(t, h, id);
      var vs := t.objects[id].versions;
      OneFile(t.objects, id, t.objects[id]);
      if number in VersionsSeen(vs) {
        var i := SeenFrom(vs, number);
        SeenAt(vs, i);
        RollbackRepeats(t, h, name, number, now, i);
        var v := Version(t.objects[id].latest + 1, vs[i].manifest, vs[i].size, now);
        SeenMore(vs, v);
        OneFile(t.objects, id, Record(v.number, vs + [v]));
      } else {
        forall i | 0 <= i < |vs| ensures vs[i].number != number { SeenAt(vs, i); }
        RollbackRefused(t, name, number, now);
      }
    } else {
      RollbackRefused(t, name, number, now);
    }
  }

  lemma PruneSeen(t: Tables, h: History, name: Name, keep: nat)
    requires WellFormed(t, h)
    ensures Seen(Prune(t, name, keep)) == KeepNewest(Seen(t), name, keep)
  {
    hide WellFormed, FilesSeen, PicturesSeen, VersionsSeen, Newer;
    if name in t.names {
      Resolves(t, h, name);
      var id := t.names[name];
      ListIsIncreasing(t, h, id);
      var record := t.objects[id];
      var vs := record.versions;
      OneFile(t.objects, id, record);
      if |vs| > keep {
        SuffixSeen(vs, keep);
        OneFile(t.objects, id, record.(versions := vs[|vs| - keep..]));
      } else {
        NoneTooMany(vs, keep);
      }
    }
  }

  lemma NamesSeen(t: Tables, from: Name, to: Name)
    ensures Seen(Rename(t, from, to)) == MoveName(Seen(t), from, to)
    ensures Seen(Unbind(t, from)) == DropName(Seen(t), from)
    ensures Seen(Delete(t, from)) == EraseFile(Seen(t), from)
  {
  }

  lemma SnapshotSeen(t: Tables, h: History, tag: Label)
    requires WellFormed(t, h)
    ensures Seen(Snapshot(t, tag)) == TakePicture(Seen(t), tag)
  {
    hide WellFormed, FilesSeen, PicturesSeen, PictureSeen, Capture, Shown, Newest;
    OnePicture(t.snapshots, tag, Capture(t));
    PictureOfCapture(t, h);
  }

  lemma PictureOfCapture(t: Tables, h: History)
    requires WellFormed(t, h)
    ensures var i := Seen(t); PictureSeen(Capture(t)) == map n | n in i.names && Shown(i, n) :: Newest(i, n)
  {
    hide WellFormed, FilesSeen, PicturesSeen, Shown, Newest, Captured, LatestEntry;
    var i := Seen(t);
    forall n | n in t.names
      ensures n in Capture(t) <==> Shown(i, n)
      ensures n in Capture(t) ==>
                var e := Capture(t)[n];
                Saved(e.id, e.number, e.manifest.data) == Newest(i, n)
    {
      CaptureIsNewest(t, h, n);
    }
  }

  /** What a snapshot captures of a name: its file's highest number, and the bytes that number was put with. */
  lemma CaptureIsNewest(t: Tables, h: History, n: Name)
    requires WellFormed(t, h) && n in t.names
    ensures n in Capture(t) <==> Shown(Seen(t), n)
    ensures n in Capture(t) ==>
              var e := Capture(t)[n];
              && Newest(Seen(t), n) == Saved(e.id, e.number, e.manifest.data)
              && e.id == t.names[n] && (e.id, e.number) in h.origin && e.manifest.data == h.origin[(e.id, e.number)]
              && forall i :: 0 <= i < |t.objects[e.id].versions| ==> t.objects[e.id].versions[i].number <= e.number
  {
    var id := t.names[n];
    ListIsIncreasing(t, h, id);
    var vs := t.objects[id].versions;
    if vs != [] {
      LastIsHighest(vs);
      assert VersionOk(id, vs[|vs| - 1], t.objects[id].latest, h);
    }
  }

  lemma DropSeen(t: Tables, tag: Label)
    ensures Seen(DropSnapshot(t, tag)) == DropPicture(Seen(t), tag)
  {
  }

  // ---------------------------------------------------------------- every run

  /** What an event means to the user: a put when its log record is durable, the other operations at once,
      and nothing else at all. */
  ghost function Meant(i: Ideal, pc: Pc, ev: Event): Ideal {
    if ev.Step? && pc.Synced? then AddVersion(i, pc.job.name, Concat(pc.job.parts), pc.job.newId, pc.job.now)
    else if !pc.Idle? then i
    else
      match ev
      case RollbackFile(name, number, now) => RepeatVersion(i, name, number, now)
      case PruneVersions(name, keep) => KeepNewest(i, name, keep)
      case RenameFile(name, to) => MoveName(i, name, to)
      case UnbindFile(name) => DropName(i, name)
      case DeleteFile(name) => EraseFile(i, name)
      case CreateSnapshot(tag) => TakePicture(i, tag)
      case DeleteSnapshot(tag) => DropPicture(i, tag)
      case _ => i
  }

  ghost function IdealRun(events: seq<Event>): Ideal {
    if events == [] then NOTHING
    else
      var init := events[..|events| - 1];
      Meant(IdealRun(init), Run(INIT, init).pc, events[|events| - 1])
  }

  lemma SoundIsStored(s: State)
    requires Sound(s)
    ensures AllStored(s.tables)
  {
    forall id, i | id in s.tables.objects && 0 <= i < |s.tables.objects[id].versions|
      ensures s.tables.objects[id].versions[i].manifest in s.tables.manifests
    {
      assert RecordBacked(s.tables.manifests, s.durable, s.tables.objects[id]);
    }
  }

  lemma IdleOpSeen(s: State, ev: Event)
    requires Sound(s) && Exact(s) && s.pc.Idle?
    ensures Seen(IdleOp(s, ev).spec) == Meant(Seen(s.spec), s.pc, ev)
  {
    hide Sound, WellFormed, Seen, Rollback, Prune, Rename, Unbind, Delete, Snapshot, DropSnapshot;
    hide RepeatVersion, KeepNewest, MoveName, DropName, EraseFile, TakePicture, DropPicture;
    match ev
    case RollbackFile(name, number, now) =>
      SoundIsStored(s);
      RollbackSeen(s.spec, s.h, name, number, now);
    case PruneVersions(name, keep) => PruneSeen(s.spec, s.h, name, keep);
    case RenameFile(name, to) => NamesSeen(s.spec, name, to);
    case UnbindFile(name) => NamesSeen(s.spec, name, name);
    case DeleteFile(name) => NamesSeen(s.spec, name, name);
    case CreateSnapshot(tag) => SnapshotSeen(s.spec, s.h, tag);
    case DeleteSnapshot(tag) => DropSeen(s.spec, tag);
    case _ =>
  }

  lemma CommitSeen(s: State)
    requires Sound(s) && Exact(s) && s.pc.Synced?
    ensures Seen(CommitStep(s).spec) == Meant(Seen(s.spec), s.pc, Step)
  {
    hide Sound, WellFormed, Seen, Apply, RecordFor, AddVersion;
    PutSeen(s.spec, s.h, s.pc.job, s.pc.current + 1);
  }

  /** Steps other than the commit are not seen. */
  lemma StepUnseen(s: State)
    requires !s.pc.Synced?
    ensures StepOf(s).spec == s.spec
  {
    hide Stage, ChunksIn, Keep;
  }

  lemma SweepUnseen(s: State, d: Digest)
    requires s.pc.Sweeping?
    ensures Seen(SweepOf(s, d).spec) == Seen(s.spec)
  {
  }

  lemma NextSeen(s: State, ev: Event)
    requires Sound(s) && Exact(s)
    ensures Seen(Next(s, ev).spec) == Meant(Seen(s.spec), s.pc, ev)
  {
    hide Sound, Exact, Seen, IdleOp, StepOf, CommitStep, SweepOf, Meant;
    NothingMeant(Seen(s.spec), s.pc, ev);
    if ev.Step? {
      if s.pc.Synced? { CommitSeen(s); StepIsCommit(s); } else { StepUnseen(s); }
    } else if s.pc.Idle? {
      IdleOpSeen(s, ev);
    } else if ev.SweepManifest? && s.pc.Sweeping? {
      SweepUnseen(s, ev.dead);
    }
  }

  lemma StepIsCommit(s: State)
    requires s.pc.Synced?
    ensures StepOf(s) == CommitStep(s)
  {
  }

  lemma NothingMeant(i: Ideal, pc: Pc, ev: Event)
    ensures !pc.Idle? && !(ev.Step? && pc.Synced?) ==> Meant(i, pc, ev) == i
    ensures ev.Step? && !pc.Synced? ==> Meant(i, pc, ev) == i
    ensures ev.Crash? || ev.Open? || ev.SweepManifest? ==> Meant(i, pc, ev) == i
  {
  }

  /** Over every run, with crashes anywhere, the committed tables are the ideal store's. */
  lemma {:induction false} RunIsIdeal(events: seq<Event>)
    requires !Run(INIT, events).hazard
    ensures Seen(Run(INIT, events).spec) == IdealRun(events)
  {
    if events == [] {
      EmptySeen();
    } else {
      hide Sound, Exact, Seen, Next, Meant;
      var init, last := events[..|events| - 1], events[|events| - 1];
      HazardStays(Run(INIT, init), last);
      RunIsIdeal(init);
      RunSound(init);
      RunExact(init);
      NextSeen(Run(INIT, init), last);
    }
  }

  lemma EmptySeen()
    ensures Seen(INIT.spec) == NOTHING
  {
  }

  // ---------------------------------------------------------------- what the user reads

  /** A ready engine shows exactly the ideal store: the same files, names and pictures; each version it lists
      reads as the ideal bytes and says their size. */
  lemma ReadyIsIdeal(events: seq<Event>, id: ObjectId, i: nat)
    requires var s := Run(INIT, events); s.pc.Idle? && !s.hazard
    ensures Seen(Run(INIT, events).tables) == IdealRun(events)
    ensures var s := Run(INIT, events);
            id in s.tables.objects && i < |s.tables.objects[id].versions| ==>
              var v := s.tables.objects[id].versions[i];
              && id in IdealRun(events).files && v.number in IdealRun(events).files[id].versions
              && var kept := IdealRun(events).files[id].versions[v.number];
              && Extract(s.tables, s.written, v.manifest) == Some(kept.bytes)
              && v.size == |kept.bytes| && v.createdAt == kept.at
  {
    var s := Run(INIT, events);
    ReadyStateIsExact(events);
    RunIsIdeal(events);
    RunSound(events);
    hide Run, IdealRun, PcSound, ShotsOk;
    if id in s.tables.objects && i < |s.tables.objects[id].versions| {
      ListedVersionsExtract(s, id, i);
      assert RecordBacked(s.tables.manifests, s.durable, s.tables.objects[id]);
      VersionIsSeen(s.tables, s.h, id, i);
    }
  }

  lemma VersionIsSeen(t: Tables, h: History, id: ObjectId, i: nat)
    requires WellFormed(t, h) && id in t.objects && i < |t.objects[id].versions|
    ensures var v := t.objects[id].versions[i];
            && id in Seen(t).files && v.number in Seen(t).files[id].versions
            && Seen(t).files[id].versions[v.number] == Kept(v.manifest.data, v.createdAt)
  {
    hide PicturesSeen, VersionsSeen;
    ListIsIncreasing(t, h, id);
    SeenAt(t.objects[id].versions, i);
  }

  /** The bytes of a picture. */
  function Shows(picture: map<Name, Saved>): map<Name, Option<Bytes>> {
    map n | n in picture :: Some(picture[n].bytes)
  }

  lemma BackedPicture(s: State, tag: Label)
    requires Sound(s) && tag in s.tables.snapshots
    ensures var entries := s.tables.snapshots[tag];
            && Restore(s.tables, s.written, entries) == Shows(PictureSeen(entries))
            && forall n :: n in entries ==> entries[n].size == |PictureSeen(entries)[n].bytes|
  {
    hide PcSound, Restore;
    assert EntriesBacked(s.tables.manifests, s.durable, s.tables.snapshots[tag]);
    BackedEntriesRestore(s, s.tables.snapshots[tag]);
  }

  /** A snapshot restores, however much later and after whatever crashes, the bytes each name's newest version
      had when it was taken, and its entries say their sizes. */
  lemma SnapshotsRestoreIdeal(events: seq<Event>, tag: Label)
    requires var s := Run(INIT, events); s.pc.Idle? && !s.hazard && tag in s.tables.snapshots
    ensures tag in IdealRun(events).pictures
    ensures var s, picture := Run(INIT, events), IdealRun(events).pictures[tag];
            && Restore(s.tables, s.written, s.tables.snapshots[tag]) == Shows(picture)
            && forall n :: n in s.tables.snapshots[tag] ==>
                 n in picture && s.tables.snapshots[tag][n].size == |picture[n].bytes|
  {
    ReadyStateIsExact(events);
    RunIsIdeal(events);
    RunSound(events);
    hide Run, IdealRun, WellFormed, FilesSeen, Sound, Restore, Shows;
    BackedPicture(Run(INIT, events), tag);
  }
}
