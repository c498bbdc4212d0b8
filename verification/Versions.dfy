/** Version numbering and name bindings: what every metadata operation of the engine keeps. */
module Versions {
  import opened Basics
  import opened Catalog

  function MaxNumber(versions: seq<Version>): (n: nat)
    ensures forall i :: 0 <= i < |versions| ==> versions[i].number <= n
    ensures versions != [] ==> exists i :: 0 <= i < |versions| && versions[i].number == n
  {
    if versions == [] then 0
    else
      var rest := MaxNumber(versions[..|versions| - 1]);
      var last := versions[|versions| - 1].number;
      assert forall i :: 0 <= i < |versions| - 1 ==> versions[..|versions| - 1][i] == versions[i];
      Max(rest, last)
  }

  function NextNumber(record: Record): nat {
    Max(record.latest, MaxNumber(record.versions)) + 1
  }

  function Concat(parts: seq<Bytes>): Bytes {
    if parts == [] then [] else Concat(parts[..|parts| - 1]) + parts[|parts| - 1]
  }

  /** One put: the content as the chunker cut it, an id to use if the name is new, and the clock. */
  datatype Job = Job(name: Name, parts: seq<Bytes>, newId: ObjectId, now: nat)

  function ManifestFor(job: Job): Manifest {
    var content := Concat(job.parts);
    Manifest(Digest(content), |content|, job.now,
             seq(|job.parts|, i requires 0 <= i < |job.parts| => Digest(job.parts[i])))
  }

  predicate NameResolves(t: Tables, name: Name) {
    name in t.names ==> t.names[name] in t.objects
  }

  /** The WAL record of a put: next version of the bound object, or version 1 of a new one. */
  function RecordFor(t: Tables, job: Job, lsn: nat): PutRec
    requires NameResolves(t, job.name)
  {
    if job.name in t.names then
      var id := t.names[job.name];
      PutRec(lsn, job.name, id, NextNumber(t.objects[id]), ManifestFor(job))
    else
      PutRec(lsn, job.name, job.newId, 1, ManifestFor(job))
  }

  // ---------------------------------------------------------------- the other operations

  function FindVersion(versions: seq<Version>, number: nat): (i: int)
    ensures -1 <= i < |versions|
    ensures i >= 0 ==> versions[i].number == number
    ensures i == -1 <==> !HasNumber(versions, number)
    ensures i >= 0 ==> FirstListed(versions, number, i)
  {
    if versions == [] then -1
    else if versions[0].number == number then 0
    else
      var i := FindVersion(versions[1..], number);
      assert versions == [versions[0]] + versions[1..];
      if i == -1 then -1 else i + 1
  }

  /** `rollback_file`: a new version that names the old version's manifest. */
  function Rollback(t: Tables, name: Name, number: nat, now: nat): Tables {
    if name in t.names && t.names[name] in t.objects then
      var id := t.names[name];
      var record := t.objects[id];
      var i := FindVersion(record.versions, number);
      if i == -1 || record.versions[i].manifest !in t.manifests then t
      else
        var next := NextNumber(record);
        var v := Version(next, record.versions[i].manifest, record.versions[i].size, now);
        t.(objects := t.objects[id := Record(next, record.versions + [v])])
    else t
  }

  /** `prune_file_versions`: drop all but the last `keep` versions, possibly all of them. */
  function Prune(t: Tables, name: Name, keep: nat): Tables {
    if name in t.names && t.names[name] in t.objects && |t.objects[t.names[name]].versions| > keep then
      var id := t.names[name];
      var record := t.objects[id];
      t.(objects := t.objects[id := record.(versions := record.versions[|record.versions| - keep..])])
    else t
  }

  function Rename(t: Tables, from: Name, to: Name): Tables {
    if from in t.names then t.(names := (t.names - {from})[to := t.names[from]]) else t
  }

  function Unbind(t: Tables, name: Name): Tables {
    t.(names := t.names - {name})
  }

  function Delete(t: Tables, name: Name): Tables {
    if name in t.names then t.(names := t.names - {name}, objects := t.objects - {t.names[name]}) else t
  }

  /** The entry a snapshot takes of each bound name whose object still lists a version. */
  predicate Captured(t: Tables, name: Name) {
    name in t.names && t.names[name] in t.objects && t.objects[t.names[name]].versions != []
  }

  function LatestEntry(t: Tables, name: Name): Entry
    requires Captured(t, name)
  {
    var record := t.objects[t.names[name]];
    var v := record.versions[|record.versions| - 1];
    Entry(t.names[name], v.number, v.manifest, v.size)
  }

  function Capture(t: Tables): map<Name, Entry> {
    map name | name in t.names && Captured(t, name) :: LatestEntry(t, name)
  }

  function Snapshot(t: Tables, tag: Label): Tables {
    if tag == "" || tag in t.snapshots then t
    else t.(snapshots := t.snapshots[tag := Capture(t)])
  }

  function DropSnapshot(t: Tables, tag: Label): Tables {
    t.(snapshots := t.snapshots - {tag})
  }

  // ---------------------------------------------------------------- the invariant

  /** History: the bytes each version was put with, and every object id ever generated. */
  datatype History = History(origin: map<(ObjectId, nat), Bytes>, used: set<ObjectId>)

  predicate Increasing(versions: seq<Version>) {
    forall i, j :: 0 <= i < j < |versions| ==> versions[i].number < versions[j].number
  }

  predicate RecordOk(id: ObjectId, record: Record, h: History) {
    && id in h.used
    && Increasing(record.versions)
    && (forall i :: 0 <= i < |record.versions| ==> VersionOk(id, record.versions[i], record.latest, h))
  }

  predicate VersionOk(id: ObjectId, v: Version, latest: nat, h: History) {
    && 1 <= v.number <= latest
    && (id, v.number) in h.origin
    && h.origin[(id, v.number)] == v.manifest.data
  }

  ghost predicate WellFormed(t: Tables, h: History) {
    && (forall n :: n in t.names ==> t.names[n] in t.objects)
    && (forall m, n :: m in t.names && n in t.names && t.names[m] == t.names[n] ==> m == n)
    && (forall id :: id in t.objects ==> RecordOk(id, t.objects[id], h))
    && (forall k :: k in h.origin ==> k.0 in h.used && (k.0 in t.objects ==> k.1 <= t.objects[k.0].latest))
  }

  lemma NextIsLatestPlusOne(id: ObjectId, record: Record, h: History)
    requires RecordOk(id, record, h)
    ensures NextNumber(record) == record.latest + 1
  {
  }

  /** History after a put committed. */
  function Committed(h: History, r: PutRec): History {
    History(h.origin[(r.id, r.number) := r.manifest.content.data], h.used + {r.id})
  }

  lemma AppendedRecordOk(id: ObjectId, record: Record, v: Version, h: History, h': History)
    requires RecordOk(id, record, h) && v.number == record.latest + 1
    requires h' == History(h.origin[(id, v.number) := v.manifest.data], h.used + {id})
    ensures RecordOk(id, Record(v.number, record.versions + [v]), h')
  {
  }

  /** The record of a put names a version number its object never had, one above the latest. */
  lemma RecordForIsNew(t: Tables, h: History, job: Job, lsn: nat)
    requires WellFormed(t, h) && job.newId !in h.used
    ensures NameResolves(t, job.name)
    ensures var r := RecordFor(t, job, lsn);
            && r.number == (if r.id in t.objects then t.objects[r.id].latest else 0) + 1
            && (r.id, r.number) !in h.origin
            && !HasNumber(RecordOr(t.objects, r).versions, r.number)
            && (job.name !in t.names ==> r.id !in t.objects)
  {
  }

  lemma PutObjects(t: Tables, h: History, job: Job, lsn: nat)
    requires WellFormed(t, h) && job.newId !in h.used
    ensures NameResolves(t, job.name)
    ensures var r := RecordFor(t, job, lsn);
            && Apply(t, r).objects ==
               t.objects[r.id := Record(r.number, RecordOr(t.objects, r).versions + [VersionOf(r)])]
            && Apply(t, r).names == t.names[job.name := r.id]
  {
    hide RecordFor, HasNumber, WellFormed;
    RecordForIsNew(t, h, job, lsn);
    RecordForIds(t, job, lsn);
  }

  /** The record a put leaves, when it is the put's own and when it is another's. */
  lemma PutRecordOk(t: Tables, h: History, job: Job, lsn: nat, id: ObjectId)
    requires WellFormed(t, h) && job.newId !in h.used && NameResolves(t, job.name)
    requires id in Apply(t, RecordFor(t, job, lsn)).objects
    ensures var r := RecordFor(t, job, lsn); RecordOk(id, Apply(t, r).objects[id], Committed(h, r))
  {
    hide RecordFor, HasNumber, Apply;
    RecordForIsNew(t, h, job, lsn);
    PutObjects(t, h, job, lsn);
    var r := RecordFor(t, job, lsn);
    if id != r.id {
      OtherRecordOk(id, t.objects[id], h, r);
    } else if id in t.objects {
      AppendedRecordOk(id, t.objects[id], VersionOf(r), h, Committed(h, r));
    } else {
      assert Apply(t, r).objects[id].versions == [VersionOf(r)];
    }
  }

  lemma PutKeepsWellFormed(t: Tables, h: History, job: Job, lsn: nat)
    requires WellFormed(t, h) && job.newId !in h.used
    ensures NameResolves(t, job.name)
    ensures var r := RecordFor(t, job, lsn); WellFormed(Apply(t, r), Committed(h, r))
  {
    hide RecordFor, HasNumber, Apply, RecordOk, RecordOr;
    RecordForIsNew(t, h, job, lsn);
    PutObjects(t, h, job, lsn);
    RecordForIds(t, job, lsn);
    var r := RecordFor(t, job, lsn);
    forall id | id in Apply(t, r).objects ensures RecordOk(id, Apply(t, r).objects[id], Committed(h, r)) {
      PutRecordOk(t, h, job, lsn, id);
    }
    forall id | id in t.objects ensures id in h.used { ObjectsAreUsed(t, h, id); }
  }

  lemma ObjectsAreUsed(t: Tables, h: History, id: ObjectId)
    requires WellFormed(t, h) && id in t.objects
    ensures id in h.used
  {
    assert RecordOk(id, t.objects[id], h);
  }

  lemma RecordForIds(t: Tables, job: Job, lsn: nat)
    requires NameResolves(t, job.name)
    ensures var r := RecordFor(t, job, lsn);
            && r.name == job.name
            && r.lsn == lsn
            && r.manifest == ManifestFor(job)
            && r.id == (if job.name in t.names then t.names[job.name] else job.newId)
  {
  }

  lemma OtherRecordOk(id: ObjectId, record: Record, h: History, r: PutRec)
    requires RecordOk(id, record, h) && id != r.id
    ensures RecordOk(id, record, Committed(h, r))
  {
  }

  /** The first version listed under a number is the `i`-th. */
  predicate FirstListed(versions: seq<Version>, number: nat, i: nat) {
    i < |versions| && versions[i].number == number && forall j :: 0 <= j < i ==> versions[j].number != number
  }

  /** Whether a rollback succeeds: the version is listed and its manifest stored. */
  predicate CanRollBack(t: Tables, name: Name, number: nat) {
    && name in t.names && t.names[name] in t.objects
    && var versions := t.objects[t.names[name]].versions;
    exists i :: 0 <= i < |versions| && FirstListed(versions, number, i) && versions[i].manifest in t.manifests
  }

  /** History after a rollback: one above the latest number, the bytes the old number was put with. */
  ghost function RolledBack(t: Tables, h: History, name: Name, number: nat): History {
    if CanRollBack(t, name, number) && (t.names[name], number) in h.origin then
      var id := t.names[name];
      h.(origin := h.origin[(id, t.objects[id].latest + 1) := h.origin[(id, number)]])
    else h
  }

  /** A rollback appends the version asked for: its manifest and its size, under the next number. */
  lemma RollbackRepeats(t: Tables, h: History, name: Name, number: nat, now: nat, i: nat)
    requires WellFormed(t, h) && name in t.names && t.names[name] in t.objects
    requires i < |t.objects[t.names[name]].versions|
    requires var v := t.objects[t.names[name]].versions[i]; v.number == number && v.manifest in t.manifests
    ensures var id := t.names[name];
            var was := t.objects[id];
            var v := was.versions[i];
            && CanRollBack(t, name, number)
            && Rollback(t, name, number, now) ==
               t.(objects := t.objects[id := Record(was.latest + 1,
                                                    was.versions + [Version(was.latest + 1, v.manifest, v.size, now)])])
            && (id, number) in h.origin && v.manifest.data == h.origin[(id, number)]
  {
    var id := t.names[name];
    var record := t.objects[id];
    assert RecordOk(id, record, h);
    NextIsLatestPlusOne(id, record, h);
    assert VersionOk(id, record.versions[i], record.latest, h);
    assert HasNumber(record.versions, number);
    assert FindVersion(record.versions, number) == i;
    assert FirstListed(record.versions, number, i);
  }

  /** Otherwise it changes nothing. */
  lemma RollbackRefused(t: Tables, name: Name, number: nat, now: nat)
    requires !CanRollBack(t, name, number)
    ensures Rollback(t, name, number, now) == t
  {
  }

  lemma RollbackKeepsWellFormed(t: Tables, h: History, name: Name, number: nat, now: nat)
    requires WellFormed(t, h)
    ensures WellFormed(Rollback(t, name, number, now), RolledBack(t, h, name, number))
  {
    hide WellFormed, Rollback;
    if CanRollBack(t, name, number) {
      Resolves(t, h, name);
      var id := t.names[name];
      var record := t.objects[id];
      var i :| 0 <= i < |record.versions| && FirstListed(record.versions, number, i) &&
          record.versions[i].manifest in t.manifests;
      RollbackRepeats(t, h, name, number, now, i);
      var v := Version(record.latest + 1, record.versions[i].manifest, record.versions[i].size, now);
      RolledBackOk(t, h, id, v, RolledBack(t, h, name, number));
    } else {
      RollbackRefused(t, name, number, now);
    }
  }

  lemma Resolves(t: Tables, h: History, name: Name)
    requires WellFormed(t, h) && name in t.names
    ensures t.names[name] in t.objects
  {
  }

  lemma RolledBackOk(t: Tables, h: History, id: ObjectId, v: Version, h': History)
    requires WellFormed(t, h) && id in t.objects && v.number == t.objects[id].latest + 1
    requires h' == h.(origin := h.origin[(id, v.number) := v.manifest.data])
    ensures WellFormed(t.(objects := t.objects[id := Record(v.number, t.objects[id].versions + [v])]), h')
  {
    var record := t.objects[id];
    var t' := t.(objects := t.objects[id := Record(v.number, record.versions + [v])]);
    assert RecordOk(id, record, h);
    assert h'.used == h.used + {id};
    AppendedRecordOk(id, record, v, h, h');
    forall o | o in t'.objects ensures RecordOk(o, t'.objects[o], h') {
      if o != id { OtherRecordOk(o, t.objects[o], h, PutRec(0, "", id, v.number, Manifest(v.manifest, 0, 0, []))); }
    }
  }

  /** The remaining operations assign no number, so the history stays. */
  lemma PruneKeepsWellFormed(t: Tables, h: History, name: Name, keep: nat)
    requires WellFormed(t, h)
    ensures WellFormed(Prune(t, name, keep), h)
  {
    var t' := Prune(t, name, keep);
    if t' != t {
      var id := t.names[name];
      var record := t.objects[id];
      var d := |record.versions| - keep;
      assert RecordOk(id, record, h);
      var vs := record.versions[d..];
      forall i | 0 <= i < |vs| ensures VersionOk(id, vs[i], record.latest, h) {
        assert vs[i] == record.versions[d + i];
      }
      assert RecordOk(id, t'.objects[id], h);
    }
  }

  lemma RenameKeepsWellFormed(t: Tables, h: History, from: Name, to: Name)
    requires WellFormed(t, h)
    ensures WellFormed(Rename(t, from, to), h)
  {
    hide RecordOk;
  }

  lemma UnbindKeepsWellFormed(t: Tables, h: History, name: Name)
    requires WellFormed(t, h)
    ensures WellFormed(Unbind(t, name), h)
  {
    hide RecordOk;
  }

  lemma DeleteKeepsWellFormed(t: Tables, h: History, name: Name)
    requires WellFormed(t, h)
    ensures WellFormed(Delete(t, name), h)
  {
    hide RecordOk;
  }
}
