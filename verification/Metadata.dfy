/** The metadata store as an object: its transactions, the log replay and the version operations that
    update it in place, and the mark and sweep loops of garbage collection. */
module Metadata {
  import opened Basics
  import opened Catalog
  import opened Versions
  import opened Engine

  // ---------------------------------------------------------------- marking, as sets

  function ManifestsOf(versions: seq<Version>): set<Digest> {
    set i | 0 <= i < |versions| :: versions[i].manifest
  }

  function EntryManifests(entries: map<Name, Entry>): set<Digest> {
    set n | n in entries :: entries[n].manifest
  }

  /** The chunks of the manifests with these ids. */
  function ChunksOf(manifests: map<Digest, Manifest>, ids: set<Digest>): set<Digest> {
    set d, i | d in ids && d in manifests && 0 <= i < |manifests[d].chunks| :: manifests[d].chunks[i]
  }

  lemma ChunksOfMore(manifests: map<Digest, Manifest>, ids: set<Digest>, d: Digest)
    requires d in manifests
    ensures ChunksOf(manifests, ids + {d}) == ChunksOf(manifests, ids) + set c | c in manifests[d].chunks
  {
  }

  /** The manifests referenced by the objects and snapshots visited so far. */
  ghost predicate Visited(t: Tables, ids: set<ObjectId>, tags: set<Label>, marked: set<Digest>) {
    && marked <= t.manifests.Keys
    && (forall d :: d in marked ==> Referenced(t, d))
    && (forall id :: id in ids && id in t.objects ==> ManifestsOf(t.objects[id].versions) <= marked)
    && (forall tag :: tag in tags && tag in t.snapshots ==> EntryManifests(t.snapshots[tag]) <= marked)
  }

  lemma VersionsAreReferenced(t: Tables, id: ObjectId)
    requires id in t.objects
    ensures forall d :: d in ManifestsOf(t.objects[id].versions) ==> Referenced(t, d)
  {
  }

  lemma EntriesAreReferenced(t: Tables, tag: Label)
    requires tag in t.snapshots
    ensures forall d :: d in EntryManifests(t.snapshots[tag]) ==> Referenced(t, d)
  {
  }

  /** All objects and snapshots visited: exactly the referenced manifests, and their chunks. */
  lemma VisitedAll(t: Tables, marked: set<Digest>)
    requires Visited(t, t.objects.Keys, t.snapshots.Keys, marked)
    ensures MarkSucceeds(t)
    ensures forall d :: Referenced(t, d) <==> d in marked
    ensures ChunksOf(t.manifests, marked) == LiveChunks(t) && t.manifests.Keys - marked == DeadManifests(t)
  {
  }

  // ---------------------------------------------------------------- the store

  class MetadataStore {
    var manifests: map<Digest, Manifest>
    var objects: map<ObjectId, Record>
    var names: map<Name, ObjectId>
    var snapshots: map<Label, map<Name, Entry>>

    constructor ()
      ensures Contents() == EMPTY
    {
      manifests, objects, names, snapshots := map[], map[], map[], map[];
    }

    ghost function Contents(): Tables
      reads this
    {
      Tables(manifests, objects, names, snapshots)
    }

    // Each of the following three is one transaction.

    method SaveManifest(m: Manifest) returns (id: Digest)
      modifies this`manifests
      ensures id == m.content && Contents() == Catalog.SaveManifest(old(Contents()), m)
    {
      id := m.content;
      manifests := manifests[id := m];
    }

    method PutObject(id: ObjectId, record: Record)
      modifies this`objects
      ensures Contents() == old(Contents()).(objects := old(objects)[id := record])
    {
      objects := objects[id := record];
    }

    method BindName(name: Name, id: ObjectId)
      modifies this`names
      ensures Contents() == Catalog.BindName(old(Contents()), name, id)
    {
      names := names[name := id];
    }

    /** The metadata part of a put, or of one replayed record. `if *` is a crash point; `stage` counts
        the transactions that were reached. */
    method ApplyRecord(r: PutRec) returns (done: bool, ghost stage: nat)
      modifies this
      ensures stage <= 3 && Contents() == Stages(old(Contents()), r, stage) && done == (stage == 3)
    {
      if * { return false, 0; }
      var id := SaveManifest(r.manifest);
      if * { return false, 1; }
      var record := if r.id in objects then objects[r.id] else Record(r.number, []);
      var listed := ListsNumber(record.versions, r.number);
      if !listed {
        var v := Version(r.number, id, r.manifest.totalSize, r.manifest.createdAt);
        PutObject(r.id, Record(r.number, record.versions + [v]));
      }
      if * { return false, 2; }
      BindName(r.name, r.id);
      return true, 3;
    }

    /** The replay loop of opening a store, over the chunks the segments hold. It ends in the whole
        replay, at the first record with a missing chunk, or, in a crash, anywhere before. */
    method ReplayLog(recs: seq<PutRec>, stored: set<Digest>) returns (r: Replayed, ghost k: nat, ghost stage: nat)
      modifies this
      ensures k <= |recs| && stage <= 3 && (stage > 0 ==> k < |recs|)
      ensures Contents() == PartReplay(old(Contents()), recs, k, stage)
      ensures r.All? ==> Contents() == Replay(old(Contents()), recs)
      ensures r.All? ==> LogChunksIn(recs, stored)
      ensures r.MissingChunk? ==> stage == 0 && k < |recs| && !ChunksIn(recs[k].manifest, stored)
    {
      hide Replay, ChunksIn, Stage;
      ghost var before := Contents();
      k, stage := 0, 0;
      ReplayNone(before, recs);
      for i := 0 to |recs|
        invariant k == i && stage == 0 && Contents() == Replay(before, recs[..i])
        invariant LogChunksIn(recs[..i], stored)
      {
        var found := HasChunks(recs[i].manifest, stored);
        if !found { return MissingChunk, k, stage; }
        ReplayNext(before, recs, i);
        var done;
        done, stage := ApplyRecord(recs[i]);
        if !done { return Crashed, k, stage; }
        k, stage := k + 1, 0;
      }
      assert recs[..|recs|] == recs;
      return All, k, stage;
    }

    /** Opening again and again, each attempt crashing anywhere: the first that completes leaves what
        one uninterrupted replay would have left. */
    method Recover(recs: seq<PutRec>, stored: set<Digest>, attempts: nat) returns (r: Replayed)
      modifies this
      ensures r.All? ==> Contents() == Replay(old(Contents()), recs)
      ensures r.MissingChunk? ==> !LogChunksIn(recs, stored)
    {
      hide Replay, PartReplay, ChunksIn;
      r := Crashed;
      for i := 0 to attempts
        invariant r.Crashed? && Replay(Contents(), recs) == Replay(old(Contents()), recs)
      {
        ghost var t := Contents();
        ghost var k, stage;
        r, k, stage := ReplayLog(recs, stored);
        if !r.Crashed? { return; }
        ReplayIsIdempotent(t, recs, k, stage);
      }
    }

    // ---------------------------------------------------------------- version operations

    /** The object and version number of the next put; None if the binding dangles. */
    method ChooseVersion(name: Name, newId: ObjectId) returns (r: Option<(ObjectId, nat)>)
      ensures r.Some? <==> NameResolves(Contents(), name)
      ensures r.Some? ==> forall parts, now, lsn ::
                var rec := RecordFor(Contents(), Job(name, parts, newId, now), lsn); r.value == (rec.id, rec.number)
    {
      if name !in names { return Some((newId, 1)); }
      var id := names[name];
      if id !in objects { return None; }
      var next := NextVersion(objects[id]);
      return Some((id, next));
    }

    method PruneFileVersions(name: Name, keepLast: nat) returns (pruned: nat)
      modifies this`objects
      ensures Contents() == Prune(old(Contents()), name, keepLast)
      ensures forall h :: WellFormed(old(Contents()), h) ==> WellFormed(Contents(), h)
      ensures pruned > 0 ==> name in names && names[name] in objects && |objects[names[name]].versions| == keepLast
    {
      hide WellFormed;
      ghost var t := Contents();
      forall h | WellFormed(t, h) ensures WellFormed(Prune(t, name, keepLast), h) {
        PruneKeepsWellFormed(t, h, name, keepLast);
      }
      if name !in names || names[name] !in objects { return 0; }
      var id := names[name];
      var record := objects[id];
      if |record.versions| <= keepLast { return 0; }
      pruned := |record.versions| - keepLast;
      PutObject(id, record.(versions := record.versions[pruned..]));
    }

    method RollbackFile(name: Name, target: nat, now: nat) returns (r: Option<nat>)
      modifies this`objects
      ensures Contents() == Rollback(old(Contents()), name, target, now)
      ensures forall h :: WellFormed(old(Contents()), h) ==>
                WellFormed(Contents(), RolledBack(old(Contents()), h, name, target))
      ensures r.Some? <==> Contents() != old(Contents())
      ensures r.Some? <==> CanRollBack(old(Contents()), name, target)
      ensures r.Some? ==> name in names && names[name] in old(objects) && names[name] in objects &&
                          Repeats(old(objects)[names[name]], objects[names[name]], target, now)
      ensures r.Some? ==>
                name in names && names[name] in old(objects) && r.value == NextNumber(old(objects)[names[name]])
    {
      hide WellFormed, RolledBack, NextNumber;
      ghost var t := Contents();
      forall h | WellFormed(t, h)
        ensures WellFormed(Rollback(t, name, target, now), RolledBack(t, h, name, target))
      {
        RollbackKeepsWellFormed(t, h, name, target, now);
      }
      if name !in names || names[name] !in objects { return None; }
      var id := names[name];
      var record := objects[id];
      var i := FindVersion(record.versions, target);
      if i == -1 || record.versions[i].manifest !in manifests { return None; }
      var next := NextVersion(record);
      var v := Version(next, record.versions[i].manifest, record.versions[i].size, now);
      PutObject(id, Record(next, record.versions + [v]));
      assert |objects[id].versions| != |record.versions|;
      return Some(next);
    }

    /** One transaction: an existing binding of the new name is replaced. */
    method RenameNameBinding(from: Name, to: Name) returns (moved: bool)
      modifies this`names
      ensures Contents() == Rename(old(Contents()), from, to) && moved == (from in old(names))
      ensures forall h :: WellFormed(old(Contents()), h) ==> WellFormed(Contents(), h)
    {
      hide WellFormed;
      ghost var t := Contents();
      forall h | WellFormed(t, h) ensures WellFormed(Rename(t, from, to), h) { RenameKeepsWellFormed(t, h, from, to); }
      if from !in names { return false; }
      var id := names[from];
      names := names - {from};
      names := names[to := id];
      return true;
    }

    method DeleteNamedObject(name: Name) returns (removed: Option<ObjectId>)
      modifies this`names, this`objects
      ensures Contents() == Delete(old(Contents()), name)
      ensures removed == if name in old(names) then Some(old(names)[name]) else None
      ensures forall h :: WellFormed(old(Contents()), h) ==> WellFormed(Contents(), h)
    {
      hide WellFormed;
      ghost var t := Contents();
      forall h | WellFormed(t, h) ensures WellFormed(Delete(t, name), h) { DeleteKeepsWellFormed(t, h, name); }
      if name !in names { return None; }
      var id := names[name];
      names := names - {name};
      objects := objects - {id};
      return Some(id);
    }

    // ---------------------------------------------------------------- mark and sweep

    /** Insert the manifests of one object's versions, and their chunks. */
    method MarkRecord(record: Record, marked: set<Digest>, chunks: set<Digest>)
        returns (ok: bool, nowMarked: set<Digest>, nowChunks: set<Digest>)
      requires chunks == ChunksOf(manifests, marked)
      ensures ok <==> ManifestsOf(record.versions) <= manifests.Keys
      ensures ok ==> nowMarked == marked + ManifestsOf(record.versions) && nowChunks == ChunksOf(manifests, nowMarked)
    {
      hide ChunksOf;
      nowMarked, nowChunks := marked, chunks;
      for i := 0 to |record.versions|
        invariant ManifestsOf(record.versions[..i]) <= manifests.Keys
        invariant nowMarked == marked + ManifestsOf(record.versions[..i]) && nowChunks == ChunksOf(manifests, nowMarked)
      {
        var d := record.versions[i].manifest;
        assert d in ManifestsOf(record.versions);
        if d !in manifests { return false, nowMarked, nowChunks; }
        ChunksOfMore(manifests, nowMarked, d);
        ManifestsOfMore(record.versions, i);
        nowMarked := nowMarked + {d};
        nowChunks := nowChunks + set c | c in manifests[d].chunks;
      }
      assert record.versions[..|record.versions|] == record.versions;
      return true, nowMarked, nowChunks;
    }

    method MarkEntries(entries: map<Name, Entry>, marked: set<Digest>, chunks: set<Digest>)
        returns (ok: bool, nowMarked: set<Digest>, nowChunks: set<Digest>)
      requires chunks == ChunksOf(manifests, marked)
      ensures ok <==> EntryManifests(entries) <= manifests.Keys
      ensures ok ==> nowMarked == marked + EntryManifests(entries) && nowChunks == ChunksOf(manifests, nowMarked)
    {
      hide ChunksOf;
      nowMarked, nowChunks := marked, chunks;
      var left := entries.Keys;
      while left != {}
        invariant left <= entries.Keys && nowMarked <= marked + EntryManifests(entries)
        invariant nowChunks == ChunksOf(manifests, nowMarked)
        invariant forall n :: n in entries && n !in left ==>
                  entries[n].manifest in nowMarked && entries[n].manifest in manifests
        invariant marked <= nowMarked
      {
        var n :| n in left;
        var d := entries[n].manifest;
        assert d in EntryManifests(entries);
        if d !in manifests { return false, nowMarked, nowChunks; }
        ChunksOfMore(manifests, nowMarked, d);
        nowMarked := nowMarked + {d};
        nowChunks := nowChunks + set c | c in manifests[d].chunks;
        left := left - {n};
      }
      return true, nowMarked, nowChunks;
    }

    /** `mark`: visit every object, named or unbound, and every snapshot. It fails exactly when one of
        them names a missing manifest; otherwise it finds exactly the referenced manifests and all
        their chunks. */
    method Mark() returns (r: Option<(set<Digest>, set<Digest>)>)
      ensures r.Some? <==> MarkSucceeds(Contents())
      ensures r.Some? ==> r.value.0 == LiveChunks(Contents())
      ensures r.Some? ==> forall d :: d in r.value.1 <==> Referenced(Contents(), d)
    {
      hide Referenced, MarkSucceeds, LiveChunks, ChunksOf, ManifestsOf, EntryManifests;
      ghost var t := Contents();
      var marked: set<Digest>, chunks: set<Digest> := {}, {};
      NoChunks(manifests);
      var ids := objects.Keys;
      while ids != {}
        invariant ids <= objects.Keys && chunks == ChunksOf(manifests, marked)
        invariant Visited(t, objects.Keys - ids, {}, marked)
      {
        var id :| id in ids;
        VersionsAreReferenced(t, id);
        var ok;
        ok, marked, chunks := MarkRecord(objects[id], marked, chunks);
        if !ok { MissingVersion(t, id); return None; }
        ids := ids - {id};
      }
      var tags := snapshots.Keys;
      while tags != {}
        invariant tags <= snapshots.Keys && chunks == ChunksOf(manifests, marked)
        invariant Visited(t, objects.Keys, snapshots.Keys - tags, marked)
      {
        var tag :| tag in tags;
        EntriesAreReferenced(t, tag);
        var ok;
        ok, marked, chunks := MarkEntries(snapshots[tag], marked, chunks);
        if !ok { MissingEntry(t, tag); return None; }
        tags := tags - {tag};
      }
      VisitedAll(t, marked);
      return Some((chunks, marked));
    }

    /** The manifest part of `sweep`, one transaction for each dead manifest, with crash points: only
        unreferenced manifests go, and once complete all of them are gone. */
    method SweepManifests(reachable: set<Digest>) returns (done: bool, reclaimed: nat, ghost gone: set<Digest>)
      requires forall d :: d in reachable <==> Referenced(Contents(), d)
      modifies this`manifests
      ensures gone <= DeadManifests(old(Contents())) && manifests == old(manifests) - gone && reclaimed == |gone|
      ensures done ==> gone == DeadManifests(old(Contents()))
    {
      var dead := manifests.Keys - reachable;
      DeadOnes(Contents(), reachable);
      hide Referenced, DeadManifests, Sum;
      reclaimed, gone := 0, {};
      ghost var all := dead;
      NoneGone(manifests, dead);
      while dead != {}
        invariant gone !! dead && Sum(gone, dead) == all && gone <= all
        invariant manifests == old(manifests) - gone && reclaimed == |gone|
        decreases dead
      {
        if * { return false, reclaimed, gone; }
        var d :| d in dead;
        OneMoreGone(old(manifests), gone, dead, d);
        manifests := manifests - {d};
        reclaimed, dead, gone := reclaimed + 1, dead - {d}, gone + {d};
      }
      NoneLeft(gone);
      return true, reclaimed, gone;
    }
  }

  function Sum(a: set<Digest>, b: set<Digest>): set<Digest> { a + b }

  lemma NoneGone(manifests: map<Digest, Manifest>, dead: set<Digest>)
    ensures manifests - {} == manifests && Sum({}, dead) == dead
  {
  }

  lemma NoneLeft(gone: set<Digest>)
    ensures Sum(gone, {}) == gone
  {
  }

  lemma OneMoreGone(manifests: map<Digest, Manifest>, gone: set<Digest>, dead: set<Digest>, d: Digest)
    requires d in dead && d !in gone
    ensures (manifests - gone) - {d} == manifests - (gone + {d})
    ensures Sum(gone + {d}, dead - {d}) == Sum(gone, dead) && |gone + {d}| == |gone| + 1
    ensures gone !! dead ==> (gone + {d}) !! (dead - {d})
    ensures gone <= Sum(gone, dead) && gone + {d} <= Sum(gone, dead)
  {
  }

  lemma DeadOnes(t: Tables, reachable: set<Digest>)
    requires forall d :: d in reachable <==> Referenced(t, d)
    ensures t.manifests.Keys - reachable == DeadManifests(t)
  {
    hide Referenced;
  }

  /** One version more, with the manifest and size of a listed version of this number. */
  ghost predicate Repeats(before: Record, after: Record, number: nat, now: nat) {
    var n := |before.versions|;
    && |after.versions| == n + 1 && after.versions[..n] == before.versions
    && after.latest == after.versions[n].number == NextNumber(before)
    && exists i :: 0 <= i < n && before.versions[i].number == number &&
         after.versions[n] == Version(after.latest, before.versions[i].manifest, before.versions[i].size, now)
  }

  datatype Replayed = All | MissingChunk | Crashed

  /** The tables after the first `n` transactions of a record. */
  function Stages(t: Tables, r: PutRec, n: nat): Tables {
    if n == 0 then t
    else if n == 1 then Stage(t, r, 0)
    else if n == 2 then Stage(Stage(t, r, 0), r, 1)
    else Apply(t, r)
  }

  lemma ReplayNone(t: Tables, recs: seq<PutRec>)
    ensures Replay(t, recs[..0]) == t
  {
  }

  lemma ReplayNext(t: Tables, recs: seq<PutRec>, i: nat)
    requires i < |recs|
    ensures Replay(t, recs[..i + 1]) == Stages(Replay(t, recs[..i]), recs[i], 3)
    ensures forall n: nat :: n <= 3 ==> Stages(Replay(t, recs[..i]), recs[i], n) == PartReplay(t, recs, i, n)
  {
    assert recs[..i + 1][..i] == recs[..i];
  }

  method HasChunks(m: Manifest, stored: set<Digest>) returns (all: bool)
    ensures all <==> ChunksIn(m, stored)
  {
    for i := 0 to |m.chunks|
      invariant forall j :: 0 <= j < i ==> m.chunks[j] in stored
    {
      if m.chunks[i] !in stored { return false; }
    }
    return true;
  }

  method ListsNumber(versions: seq<Version>, number: nat) returns (found: bool)
    ensures found <==> HasNumber(versions, number)
  {
    for i := 0 to |versions|
      invariant forall j :: 0 <= j < i ==> versions[j].number != number
    {
      if versions[i].number == number { return true; }
    }
    return false;
  }

  /** The number above the latest and above every listed one. */
  method NextVersion(record: Record) returns (next: nat)
    ensures next == NextNumber(record)
  {
    var highest := 0;
    for i := 0 to |record.versions|
      invariant highest == MaxNumber(record.versions[..i])
    {
      if record.versions[i].number > highest { highest := record.versions[i].number; }
      assert record.versions[..i + 1][..i] == record.versions[..i];
    }
    assert record.versions[..|record.versions|] == record.versions;
    next := (if record.latest > highest then record.latest else highest) + 1;
  }

  lemma ManifestsOfMore(versions: seq<Version>, i: nat)
    requires i < |versions|
    ensures ManifestsOf(versions[..i + 1]) == ManifestsOf(versions[..i]) + {versions[i].manifest}
  {
  }

  lemma NoChunks(manifests: map<Digest, Manifest>)
    ensures ChunksOf(manifests, {}) == {}
  {
  }

  lemma MissingVersion(t: Tables, id: ObjectId)
    requires id in t.objects && !(ManifestsOf(t.objects[id].versions) <= t.manifests.Keys)
    ensures !MarkSucceeds(t)
  {
  }

  lemma MissingEntry(t: Tables, tag: Label)
    requires tag in t.snapshots && !(EntryManifests(t.snapshots[tag]) <= t.manifests.Keys)
    ensures !MarkSucceeds(t)
  {
  }
}
