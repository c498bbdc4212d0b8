/** The metadata tables, their transactions, and write-ahead-log replay over them. */
module Catalog {
  import opened Basics

  type Name = string
  type Label = string
  type ObjectId = nat

  /** A BLAKE3 digest, idealised as injective: it determines the bytes it was taken of. */
  datatype Digest = Digest(data: Bytes)

  datatype Manifest = Manifest(content: Digest, totalSize: nat, createdAt: nat, chunks: seq<Digest>)
  datatype Version = Version(number: nat, manifest: Digest, size: nat, createdAt: nat)
  datatype Record = Record(latest: nat, versions: seq<Version>)
  datatype Entry = Entry(id: ObjectId, number: nat, manifest: Digest, size: nat)

  datatype Tables = Tables(
    manifests: map<Digest, Manifest>,
    objects: map<ObjectId, Record>,
    names: map<Name, ObjectId>,
    snapshots: map<Label, map<Name, Entry>>)

  /** The put payload of a WAL record; the engine logs metadata only. */
  datatype PutRec = PutRec(lsn: nat, name: Name, id: ObjectId, number: nat, manifest: Manifest)

  // ---------------------------------------------------------------- transactions

  function SaveManifest(t: Tables, m: Manifest): Tables {
    t.(manifests := t.manifests[m.content := m])
  }

  predicate HasNumber(versions: seq<Version>, number: nat) {
    exists i :: 0 <= i < |versions| && versions[i].number == number
  }

  /** The record as `get_object` returns it, or the empty one a put starts from. */
  function RecordOr(objects: map<ObjectId, Record>, r: PutRec): Record {
    if r.id in objects then objects[r.id] else Record(r.number, [])
  }

  function VersionOf(r: PutRec): Version {
    Version(r.number, r.manifest.content, r.manifest.totalSize, r.manifest.createdAt)
  }

  /** Push the version of `r` unless that number is already listed. */
  function PushVersion(objects: map<ObjectId, Record>, r: PutRec): map<ObjectId, Record> {
    var prior := RecordOr(objects, r);
    if HasNumber(prior.versions, r.number) then objects
    else objects[r.id := Record(r.number, prior.versions + [VersionOf(r)])]
  }

  function PutObject(t: Tables, r: PutRec): Tables {
    t.(objects := PushVersion(t.objects, r))
  }

  function BindName(t: Tables, name: Name, id: ObjectId): Tables {
    t.(names := t.names[name := id])
  }

  /** The three metadata transactions of a put or of one replayed record. */
  function Stage(t: Tables, r: PutRec, stage: nat): Tables {
    if stage == 0 then SaveManifest(t, r.manifest)
    else if stage == 1 then PutObject(t, r)
    else BindName(t, r.name, r.id)
  }

  function Apply(t: Tables, r: PutRec): Tables {
    Stage(Stage(Stage(t, r, 0), r, 1), r, 2)
  }

  /** Replay of a log, record by record. */
  function Replay(t: Tables, recs: seq<PutRec>): Tables {
    if recs == [] then t else Apply(Replay(t, recs[..|recs| - 1]), recs[|recs| - 1])
  }

  // ---------------------------------------------------------------- replay, table by table

  function PushAll(objects: map<ObjectId, Record>, recs: seq<PutRec>): map<ObjectId, Record> {
    if recs == [] then objects else PushVersion(PushAll(objects, recs[..|recs| - 1]), recs[|recs| - 1])
  }

  function Bindings(recs: seq<PutRec>): (m: map<Name, ObjectId>)
    ensures forall i :: 0 <= i < |recs| ==> recs[i].name in m
  {
    if recs == [] then map[]
    else
      var last := recs[|recs| - 1];
      var m := Bindings(recs[..|recs| - 1])[last.name := last.id];
      assert recs == recs[..|recs| - 1] + [last];
      m
  }

  function Saved(recs: seq<PutRec>): (m: map<Digest, Manifest>)
    ensures forall i :: 0 <= i < |recs| ==> recs[i].manifest.content in m
  {
    if recs == [] then map[]
    else
      var last := recs[|recs| - 1];
      var m := Saved(recs[..|recs| - 1])[last.manifest.content := last.manifest];
      assert recs == recs[..|recs| - 1] + [last];
      m
  }

  lemma {:induction false} ReplayByTable(t: Tables, recs: seq<PutRec>)
    ensures Replay(t, recs) ==
            Tables(t.manifests + Saved(recs), PushAll(t.objects, recs), t.names + Bindings(recs), t.snapshots)
  {
    hide PushVersion;
    if recs == [] {
      assert t.manifests + map[] == t.manifests && t.names + map[] == t.names;
    } else {
      var init, last := recs[..|recs| - 1], recs[|recs| - 1];
      ReplayByTable(t, init);
      UpdateOfSum(t.manifests, Saved(init), last.manifest.content, last.manifest);
      UpdateOfSum(t.names, Bindings(init), last.name, last.id);
    }
  }

  lemma UpdateOfSum<K, V>(a: map<K, V>, b: map<K, V>, k: K, v: V)
    ensures (a + b)[k := v] == a + b[k := v]
  {
  }

  lemma {:induction false} ReplayConcat(t: Tables, a: seq<PutRec>, b: seq<PutRec>)
    ensures Replay(t, a + b) == Replay(Replay(t, a), b)
  {
    if b == [] {
      assert a + b == a;
    } else {
      hide Apply;
      ReplayConcat(t, a, b[..|b| - 1]);
      assert (a + b)[..|a + b| - 1] == a + b[..|b| - 1];
    }
  }

  lemma {:induction false} PushAllConcat(o: map<ObjectId, Record>, a: seq<PutRec>, b: seq<PutRec>)
    ensures PushAll(o, a + b) == PushAll(PushAll(o, a), b)
  {
    if b == [] {
      assert a + b == a;
    } else {
      PushAllConcat(o, a, b[..|b| - 1]);
      assert (a + b)[..|a + b| - 1] == a + b[..|b| - 1];
    }
  }

  // ---------------------------------------------------------------- replay is idempotent

  /** The version the record put is listed by its object. */
  predicate Listed(objects: map<ObjectId, Record>, r: PutRec) {
    r.id in objects && HasNumber(objects[r.id].versions, r.number)
  }

  predicate AllListed(objects: map<ObjectId, Record>, recs: seq<PutRec>) {
    forall i :: 0 <= i < |recs| ==> Listed(objects, recs[i])
  }

  lemma PushKeepsListed(o: map<ObjectId, Record>, r: PutRec, q: PutRec)
    ensures Listed(PushVersion(o, r), r)
    ensures Listed(o, q) ==> Listed(PushVersion(o, r), q)
  {
    var prior := RecordOr(o, r);
    if !HasNumber(prior.versions, r.number) {
      var now := prior.versions + [VersionOf(r)];
      assert now[|prior.versions|].number == r.number;
      if Listed(o, q) && q.id == r.id {
        var i :| 0 <= i < |prior.versions| && prior.versions[i].number == q.number;
        assert now[i].number == q.number;
      }
    }
  }

  lemma {:induction false} PushAllLists(o: map<ObjectId, Record>, recs: seq<PutRec>, q: PutRec)
    ensures AllListed(PushAll(o, recs), recs)
    ensures Listed(o, q) ==> Listed(PushAll(o, recs), q)
  {
    if recs != [] {
      var init, last := recs[..|recs| - 1], recs[|recs| - 1];
      PushAllLists(o, init, q);
      PushKeepsListed(PushAll(o, init), last, q);
      forall i | 0 <= i < |recs| ensures Listed(PushAll(o, recs), recs[i]) {
        if i < |init| { assert init[i] == recs[i]; PushKeepsListed(PushAll(o, init), last, recs[i]); }
      }
    }
  }

  lemma {:induction false} ListedIsUnchanged(o: map<ObjectId, Record>, recs: seq<PutRec>)
    requires AllListed(o, recs)
    ensures PushAll(o, recs) == o
  {
    if recs != [] {
      var init := recs[..|recs| - 1];
      assert forall i :: 0 <= i < |init| ==> init[i] == recs[i];
      ListedIsUnchanged(o, init);
    }
  }

  lemma PushAbsorbed(o: map<ObjectId, Record>, recs: seq<PutRec>, k: nat)
    requires k < |recs| && AllListed(o, recs[..k])
    ensures PushAll(PushVersion(o, recs[k]), recs) == PushAll(o, recs)
  {
    var r, a, b := recs[k], recs[..k], recs[k + 1..];
    var p := PushVersion(o, r);
    assert PushAll(o, [r]) == p by { assert [r][..0] == []; }
    forall i | 0 <= i < |a + [r]| ensures Listed(p, (a + [r])[i]) {
      PushKeepsListed(o, r, (a + [r])[i]);
    }
    hide PushVersion, Listed;
    assert recs == a + ([r] + b) == (a + [r]) + b;
    ListedIsUnchanged(o, a);
    PushAllConcat(o, a, [r] + b);
    PushAllConcat(o, [r], b);
    ListedIsUnchanged(p, a + [r]);
    PushAllConcat(p, a + [r], b);
  }

  lemma OverwrittenAnyway<K, V>(a: map<K, V>, k: K, v: V, b: map<K, V>)
    requires k in b
    ensures a[k := v] + b == a + b
  {
  }

  /** Executing the next transaction of an ordered replay early does not change what replaying
      the whole log gives. */
  lemma StageAbsorbed(t: Tables, recs: seq<PutRec>, k: nat, stage: nat)
    requires k < |recs| && stage < 3 && AllListed(t.objects, recs[..k])
    ensures Replay(Stage(t, recs[k], stage), recs) == Replay(t, recs)
  {
    hide PushVersion, AllListed, Replay, PushAll, Bindings, Saved;
    var r := recs[k];
    ReplayByTable(t, recs);
    ReplayByTable(Stage(t, r, stage), recs);
    PushAbsorbed(t.objects, recs, k);
    OverwrittenAnyway(t.names, r.name, r.id, Bindings(recs));
    OverwrittenAnyway(t.manifests, r.manifest.content, r.manifest, Saved(recs));
  }

  /** The tables after `k` whole records and `stage` transactions of the next one. */
  function PartReplay(t: Tables, recs: seq<PutRec>, k: nat, stage: nat): Tables
    requires k <= |recs| && stage <= 3 && (stage > 0 ==> k < |recs|)
  {
    var u := Replay(t, recs[..k]);
    if stage == 0 then u
    else if stage == 1 then Stage(u, recs[k], 0)
    else if stage == 2 then Stage(Stage(u, recs[k], 0), recs[k], 1)
    else Apply(u, recs[k])
  }

  /** Replaying a log from the start, over the tables any interrupted replay of it left behind,
      gives what one uninterrupted replay gives. */
  lemma {:induction false} ReplayIsIdempotent(t: Tables, recs: seq<PutRec>, k: nat, stage: nat)
    requires k <= |recs| && stage <= 3 && (stage > 0 ==> k < |recs|)
    ensures Replay(PartReplay(t, recs, k, stage), recs) == Replay(t, recs)
    decreases k, stage
  {
    if stage > 0 {
      ReplayIsIdempotent(t, recs, k, stage - 1);
      var u := PartReplay(t, recs, k, stage - 1);
      ReplayByTable(t, recs[..k]);
      PushAllLists(t.objects, recs[..k], recs[k]);
      assert AllListed(u.objects, recs[..k]) by {
        if stage == 3 {
          var o := PushAll(t.objects, recs[..k]);
          forall i | 0 <= i < k ensures Listed(u.objects, recs[..k][i]) {
            PushKeepsListed(o, recs[k], recs[..k][i]);
          }
        }
      }
      StageAbsorbed(u, recs, k, stage - 1);
    } else if k > 0 {
      ReplayIsIdempotent(t, recs, k - 1, 3);
      assert recs[..k][..k - 1] == recs[..k - 1];
    } else {
      assert recs[..0] == [];
    }
  }

  // ---------------------------------------------------------------- when a replay changes nothing

  /** No later record of the log writes the same name. */
  predicate LastForName(recs: seq<PutRec>, i: nat)
    requires i < |recs|
  {
    forall j :: i < j < |recs| ==> recs[j].name != recs[i].name
  }

  predicate LastForContent(recs: seq<PutRec>, i: nat)
    requires i < |recs|
  {
    forall j :: i < j < |recs| ==> recs[j].manifest.content != recs[i].manifest.content
  }

  /** Every record of the log is still in effect: its version is listed, and the last record for a
      name or a content is what the tables hold for it. */
  ghost predicate InForce(t: Tables, recs: seq<PutRec>) {
    && AllListed(t.objects, recs)
    && (forall i :: 0 <= i < |recs| && LastForName(recs, i) ==>
          recs[i].name in t.names && t.names[recs[i].name] == recs[i].id)
    && (forall i :: 0 <= i < |recs| && LastForContent(recs, i) ==>
          recs[i].manifest.content in t.manifests && t.manifests[recs[i].manifest.content] == recs[i].manifest)
  }

  lemma {:induction false} BindingsAreLast(recs: seq<PutRec>, i: nat)
    requires i < |recs|
    ensures LastForName(recs, i) ==> Bindings(recs)[recs[i].name] == recs[i].id
    ensures LastForContent(recs, i) ==> Saved(recs)[recs[i].manifest.content] == recs[i].manifest
  {
    var init := recs[..|recs| - 1];
    if i < |init| {
      BindingsAreLast(init, i);
      assert forall j :: 0 <= j < |init| ==> init[j] == recs[j];
    }
  }

  lemma {:induction false} LastNameExists(recs: seq<PutRec>, n: Name) returns (i: nat)
    requires n in Bindings(recs)
    ensures i < |recs| && recs[i].name == n && LastForName(recs, i)
  {
    i := |recs| - 1;
    if recs[i].name != n {
      var init := recs[..i];
      i := LastNameExists(init, n);
      forall j | i < j < |recs| ensures recs[j].name != recs[i].name {
        if j < |init| { assert init[j].name != init[i].name; }
      }
    }
  }

  lemma {:induction false} LastContentExists(recs: seq<PutRec>, d: Digest) returns (i: nat)
    requires d in Saved(recs)
    ensures i < |recs| && recs[i].manifest.content == d && LastForContent(recs, i)
  {
    i := |recs| - 1;
    if recs[i].manifest.content != d {
      var init := recs[..i];
      i := LastContentExists(init, d);
      forall j | i < j < |recs| ensures recs[j].manifest.content != recs[i].manifest.content {
        if j < |init| { assert init[j].manifest.content != init[i].manifest.content; }
      }
    }
  }

  lemma SumUnchanged<K, V>(a: map<K, V>, b: map<K, V>)
    ensures a + b == a <==> forall k :: k in b ==> k in a && a[k] == b[k]
  {
  }

  /** Replaying a log over the tables changes nothing exactly when all of it is still in force. */
  lemma InForceIffUnchanged(t: Tables, recs: seq<PutRec>)
    ensures InForce(t, recs) <==> Replay(t, recs) == t
  {
    hide PushVersion, Listed, Replay, Bindings, Saved;
    ReplayByTable(t, recs);
    SumUnchanged(t.names, Bindings(recs));
    SumUnchanged(t.manifests, Saved(recs));
    if InForce(t, recs) {
      ListedIsUnchanged(t.objects, recs);
      forall n | n in Bindings(recs) ensures n in t.names && t.names[n] == Bindings(recs)[n] {
        var i := LastNameExists(recs, n);
        BindingsAreLast(recs, i);
      }
      forall d | d in Saved(recs) ensures d in t.manifests && t.manifests[d] == Saved(recs)[d] {
        var i := LastContentExists(recs, d);
        BindingsAreLast(recs, i);
      }
    }
    if Replay(t, recs) == t {
      if recs != [] { PushAllLists(t.objects, recs, recs[0]); }
      forall i | 0 <= i < |recs|
        ensures LastForName(recs, i) ==> recs[i].name in t.names && t.names[recs[i].name] == recs[i].id
        ensures LastForContent(recs, i) ==>
                  recs[i].manifest.content in t.manifests && t.manifests[recs[i].manifest.content] == recs[i].manifest
      {
        BindingsAreLast(recs, i);
      }
    }
  }

  /** Appending a record and applying it keeps the whole log in force. */
  lemma ApplyKeepsInForce(t: Tables, recs: seq<PutRec>, r: PutRec)
    requires Replay(t, recs) == t
    ensures Replay(Apply(t, r), recs + [r]) == Apply(t, r)
  {
    var log := recs + [r];
    assert log[..|recs|] == recs;
    ReplayConcat(t, recs, [r]);
    assert Replay(t, [r]) == Apply(t, r) by { assert [r][..0] == []; }
    ReplayIsIdempotent(t, log, |log|, 0);
    assert log[..|log|] == log;
  }
}
