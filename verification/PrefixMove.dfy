/** Moving or unbinding a whole subtree of names in one transaction, against the simultaneous
    substitution it is meant to be. */
module PrefixMove {
  import opened Basics

  type Name = string
  type ObjectId = nat

  /** A name under `from`, by whole path components, and what follows it. */
  function Suffix(name: Name, from: Name): Option<Name> {
    if from == "" then Some(name)
    else if name == from then Some("")
    else if |from| < |name| && name[..|from|] == from && name[|from|] == '/' then Some(name[|from| + 1..])
    else None
  }

  function Target(to: Name, suffix: Name): Name {
    if suffix == "" then to else if to == "" then suffix else to + "/" + suffix
  }

  /** A request: the subtree, where it goes (nowhere: unbind), and the two name filters. */
  datatype Move = Move(from: Name, to: Option<Name>, included: Name -> bool, valid: Name -> bool)

  /** Where a name under the subtree goes; None means it is unbound. */
  function Dest(m: Move, name: Name): Option<Name> {
    var suffix := Suffix(name, m.from);
    if suffix.None? || m.to.None? then None
    else
      var target := Target(m.to.value, suffix.value);
      if m.included(target) then Some(target) else None
  }

  // ---------------------------------------------------------------- when two names go to one place

  lemma SuffixSpells(name: Name, from: Name)
    requires Suffix(name, from).Some? && from != "" && name != from
    ensures name == from + "/" + Suffix(name, from).value
  {
  }

  lemma TargetInjective(to: Name, a: Name, b: Name)
    ensures Target(to, a) == Target(to, b) <==> a == b
  {
    if a != "" && b != "" && to != "" {
      assert (to + "/" + a)[|to| + 1..] == a;
      assert (to + "/" + b)[|to| + 1..] == b;
    } else if a == "" && b != "" && to != "" {
      assert |to + "/" + b| > |to|;
    } else if b == "" && a != "" && to != "" {
      assert |to + "/" + a| > |to|;
    }
  }

  /** Two different names of a subtree are sent to the same target exactly when they are the
      subtree's own name with and without a trailing slash. */
  lemma TargetsCollideIff(from: Name, to: Name, a: Name, b: Name)
    requires a != b && Suffix(a, from).Some? && Suffix(b, from).Some?
    ensures Target(to, Suffix(a, from).value) == Target(to, Suffix(b, from).value) <==>
            from != "" && ((a == from && b == from + "/") || (b == from && a == from + "/"))
  {
    TargetInjective(to, Suffix(a, from).value, Suffix(b, from).value);
    if from != "" {
      if a != from { SuffixSpells(a, from); }
      if b != from { SuffixSpells(b, from); }
      assert from + "/" == from + "/" + "";
    }
  }

  /** The names of a subtree: its own, and those that continue it behind a slash. */
  lemma SuffixIff(name: Name, from: Name)
    ensures Suffix(name, from).Some? <==> from == "" || name == from || from + "/" <= name
  {
    if from + "/" <= name { assert name[..|from|] == (from + "/")[..|from|] && name[|from|] == (from + "/")[|from|]; }
  }

  /** Names a request must leave alone: those outside the subtree, and, for an unbind, those not tracked. */
  predicate Outside(tracked: set<Name>, m: Move, n: Name) {
    || (m.from != "" && n != m.from && !(m.from + "/" <= n))
    || (m.to.None? && n !in tracked)
  }

  /** A target lies under `to` by whole path components, with the rest it had under `from`. */
  lemma TargetIsUnder(to: Name, rest: Name)
    ensures Suffix(Target(to, rest), to) == Some(rest)
  {
    if to != "" && rest != "" {
      var name := to + "/" + rest;
      assert name[..|to|] == to && name[|to|] == '/' && name[|to| + 1..] == rest;
    }
  }

  /** Moving a name there and back again is the identity, for every name of the subtree but the subtree's own
      with a trailing slash. */
  lemma MovingBackRestores(from: Name, to: Name, name: Name)
    requires Suffix(name, from).Some?
    ensures var there := Target(to, Suffix(name, from).value);
            && Suffix(there, to).Some?
            && (Target(from, Suffix(there, to).value) == name <==> from == "" || name != from + "/")
  {
    TargetIsUnder(to, Suffix(name, from).value);
    if from != "" && name != from {
      SuffixSpells(name, from);
      assert from + "/" + "" == from + "/";
    }
  }

  /** A sibling that only shares a string prefix is not part of the subtree. */
  lemma SiblingIsOutside(from: Name, rest: Name)
    requires from != "" && rest != "" && rest[0] != '/'
    ensures Suffix(from + rest, from).None?
  {
  }

  // ---------------------------------------------------------------- the transaction

  type Change = (Name, Option<Name>)

  function Olds(changes: seq<Change>): set<Name> {
    set i | 0 <= i < |changes| :: changes[i].0
  }

  predicate DistinctOlds(changes: seq<Change>) {
    forall i, j :: 0 <= i < j < |changes| ==> changes[i].0 != changes[j].0
  }

  /** No two bound names with different objects are sent to one target. */
  predicate Compatible(before: map<Name, ObjectId>, changes: seq<Change>) {
    forall i, j :: 0 <= i < j < |changes| && changes[i].1.Some? && changes[i].0 in before && changes[j].0 in before ==>
      changes[i].1 != changes[j].1 || before[changes[i].0] == before[changes[j].0]
  }

  /** Simultaneous substitution: each changed name's object is found at its target and nowhere
      else, and every other name is as before unless a target overwrites it. */
  ghost predicate Substituted(before: map<Name, ObjectId>, after: map<Name, ObjectId>, changes: seq<Change>) {
    && (forall i :: 0 <= i < |changes| && changes[i].1.Some? && changes[i].0 in before ==>
          changes[i].1.value in after && after[changes[i].1.value] == before[changes[i].0])
    && OthersStay(before, after, changes)
  }

  /** Every name that is neither changed nor a target is as before, and no other name appears. */
  ghost predicate OthersStay(before: map<Name, ObjectId>, after: map<Name, ObjectId>, changes: seq<Change>) {
    && (forall n :: n in before && n !in Olds(changes) && !IsTarget(before, changes, n) ==>
        n in after && after[n] == before[n])
    && (forall n :: n in after ==> IsTarget(before, changes, n) || (n in before && n !in Olds(changes)))
  }

  ghost predicate IsTarget(before: map<Name, ObjectId>, changes: seq<Change>, n: Name) {
    exists i :: 0 <= i < |changes| && changes[i].0 in before && changes[i].1 == Some(n)
  }

  /** What the first loop has gathered: entry `k` comes from change `origin[k]`. */
  ghost predicate Collected(before: map<Name, ObjectId>, changes: seq<Change>, i: nat,
                            moved: seq<(Option<Name>, ObjectId)>, origin: seq<nat>) {
    && i <= |changes| && |moved| == |origin|
    && (forall k :: 0 <= k < |moved| ==> origin[k] < i && changes[origin[k]].0 in before)
    && (forall k :: 0 <= k < |moved| ==> moved[k] == (changes[origin[k]].1, before[changes[origin[k]].0]))
    && (forall j, k :: 0 <= j < k < |moved| ==> origin[j] < origin[k])
    && (forall j :: 0 <= j < i && changes[j].0 in before ==> j in origin)
  }

  /** What the second loop does: bind the targets in order. */
  function PutAll(names: map<Name, ObjectId>, moved: seq<(Option<Name>, ObjectId)>): map<Name, ObjectId> {
    if moved == [] then names
    else
      var rest := PutAll(names, moved[..|moved| - 1]);
      var (target, id) := moved[|moved| - 1];
      if target.Some? then rest[target.value := id] else rest
  }

  lemma {:induction false} PutAllKeeps(names: map<Name, ObjectId>, moved: seq<(Option<Name>, ObjectId)>, n: Name)
    requires forall j :: 0 <= j < |moved| ==> moved[j].0 != Some(n)
    ensures n in PutAll(names, moved) <==> n in names
    ensures n in names ==> PutAll(names, moved)[n] == names[n]
  {
    if moved != [] { PutAllKeeps(names, moved[..|moved| - 1], n); }
  }

  /** The last entry for a target decides. */
  lemma {:induction false} PutAllBinds(names: map<Name, ObjectId>, moved: seq<(Option<Name>, ObjectId)>, k: nat)
    requires k < |moved| && moved[k].0.Some? && forall j :: k < j < |moved| ==>
             moved[j].0 != moved[k].0 || moved[j].1 == moved[k].1
    ensures moved[k].0.value in PutAll(names, moved) && PutAll(names, moved)[moved[k].0.value] == moved[k].1
  {
    var n := |moved| - 1;
    if k < n {
      assert moved[..n][k] == moved[k];
      PutAllBinds(names, moved[..n], k);
      assert moved[n].0 != moved[k].0 || moved[n].1 == moved[k].1;
    }
  }

  class NameIndex {
    var names: map<Name, ObjectId>
    var tracked: set<Name>            // watcher marks under this watch root
    const records: set<ObjectId>      // objects that have a record

    constructor (names: map<Name, ObjectId>, tracked: set<Name>, records: set<ObjectId>)
      ensures this.names == names && this.tracked == tracked && this.records == records
    {
      this.names, this.tracked, this.records := names, tracked, records;
    }

    /** First loop of the transaction: every old binding is taken out, and kept with its target. */
    method TakeOut(changes: seq<Change>) returns (moved: seq<(Option<Name>, ObjectId)>, ghost origin: seq<nat>)
      requires DistinctOlds(changes)
      modifies this
      ensures Collected(old(names), changes, |changes|, moved, origin)
      ensures names == old(names) - Olds(changes) && tracked == old(tracked) - Olds(changes)
      ensures Olds(changes) <= old(names).Keys ==> |moved| == |changes|
    {
      ghost var before := names;
      moved, origin := [], [];
      assert Collected(before, changes, 0, moved, origin);
      assert Olds(changes[..0]) == {};
      hide Collected, Olds, DistinctOlds;
      for i := 0 to |changes|
        invariant Collected(before, changes, i, moved, origin)
        invariant names == before - Olds(changes[..i]) && tracked == old(tracked) - Olds(changes[..i])
        invariant Olds(changes[..i]) <= before.Keys ==> |moved| == i
      {
        var (name, target) := changes[i];
        OldsDropped(before, old(tracked), changes, i);
        StillBound(before, changes, i);
        CollectedStep(before, changes, i, moved, origin);
        if name in names {
          moved := moved + [(target, names[name])];
          origin := origin + [i];
        }
        names, tracked := names - {name}, tracked - {name};
      }
      assert changes[..|changes|] == changes;
    }

    /** Second loop: every target is bound. */
    method PutIn(moved: seq<(Option<Name>, ObjectId)>)
      modifies this
      ensures names == PutAll(old(names), moved)
      ensures forall n :: n in tracked <==> n in old(tracked) || exists k :: 0 <= k < |moved| && moved[k].0 == Some(n)
    {
      for k := 0 to |moved|
        invariant names == PutAll(old(names), moved[..k])
        invariant forall n :: n in tracked <==> n in old(tracked) || exists j :: 0 <= j < k && moved[j].0 == Some(n)
      {
        assert moved[..k + 1][..k] == moved[..k];
        var (target, id) := moved[k];
        if target.Some? {
          names, tracked := names[target.value := id], tracked + {target.value};
        }
      }
      assert moved[..|moved|] == moved;
    }

    /** `update_watcher_bindings`. */
    method UpdateBindings(changes: seq<Change>) returns (count: nat)
      requires DistinctOlds(changes)
      modifies this
      ensures Substituted(old(names), names, changes) <==> Compatible(old(names), changes)
      ensures OthersStay(old(names), names, changes)
      ensures forall n :: n in tracked <==>
                IsTarget(old(names), changes, n) || (n in old(tracked) && n !in Olds(changes))
      ensures Olds(changes) <= old(names).Keys ==> count == |changes|
    {
      ghost var before := names;
      var moved, origin := TakeOut(changes);
      PutIn(moved);
      TargetsAreMoved(before, changes, moved, origin);
      OthersKept(before, changes, moved, origin);
      if Compatible(before, changes) { MovedSubstitutes(before, changes, moved, origin); }
          else { NeverSubstituted(before, names, changes); }
      return |moved|;
    }

    /** `update_watched_prefix`. */
    method UpdateWatchedPrefix(m: Move) returns (ok: bool, changes: seq<Change>)
      modifies this
      ensures !ok ==> names == old(names) && tracked == old(tracked)
      ensures ok ==> forall n :: n in Olds(changes) <==> Selected(old(names), old(tracked), records, m, n)
      ensures ok ==> DistinctOlds(changes) && forall i :: 0 <= i < |changes| ==> changes[i].1 == Dest(m, changes[i].0)
      ensures ok && m.to.Some? ==> forall i :: 0 <= i < |changes| && changes[i].1.Some? ==>
                Suffix(changes[i].1.value, m.to.value) == Suffix(changes[i].0, m.from)
      ensures ok && m.to.None? ==> forall i :: 0 <= i < |changes| ==> changes[i].1.None?
      ensures ok && m.to.Some? ==> forall i :: 0 <= i < |changes| ==>
                Suffix(changes[i].0, m.from).Some? &&
                (changes[i].1.Some? <==> m.included(Target(m.to.value, Suffix(changes[i].0, m.from).value)))
      ensures ok ==> forall n :: n in Olds(changes) <==>
                n in old(names) && old(names)[n] in records && !Outside(old(tracked), m, n)
      ensures ok ==> forall n :: n in old(names) && Outside(old(tracked), m, n) && !IsTarget(old(names), changes, n) ==>
                n in names && names[n] == old(names)[n]
      ensures ok <==> forall n :: Selected(old(names), old(tracked), records, m, n) && Dest(m, n).Some? ==>
                m.valid(Dest(m, n).value)
      ensures ok ==> (Substituted(old(names), names, changes) <==> !SlashTwins(old(names), old(tracked), records, m))
    {
      changes := [];
      var todo := names.Keys;
      while todo != {}
        invariant todo <= names.Keys && names == old(names) && tracked == old(tracked)
        invariant DistinctOlds(changes)
        invariant forall n :: n in Olds(changes) <==> n !in todo && Selected(names, tracked, records, m, n)
        invariant forall i :: 0 <= i < |changes| ==> changes[i].1 == Dest(m, changes[i].0)
        invariant forall n :: n !in todo && Selected(names, tracked, records, m, n) && Dest(m, n).Some? ==>
                    m.valid(Dest(m, n).value)
        decreases todo
      {
        var name :| name in todo;
        if Selected(names, tracked, records, m, name) {
          var target := Dest(m, name);
          if target.Some? && !m.valid(target.value) { return false, []; }
          OldsAppend(changes, (name, target));
          changes := changes + [(name, target)];
        }
        todo := todo - {name};
      }
      CompatibleIff(names, tracked, records, m, changes);
      WhatChanges(names, tracked, records, m, changes);
      var _ := UpdateBindings(changes);
      ok := true;
    }
  }

  /** Which names a move takes: those of the subtree that have a record; for an unbind, those the
      watcher tracks. */
  predicate Selected(names: map<Name, ObjectId>, tracked: set<Name>, records: set<ObjectId>, m: Move, n: Name) {
    && n in names && names[n] in records && Suffix(n, m.from).Some?
    && (m.to.None? ==> n in tracked)
  }

  /** The subtree's own name is selected with and without a trailing slash, for different objects,
      and is moved rather than unbound. */
  predicate SlashTwins(names: map<Name, ObjectId>, tracked: set<Name>, records: set<ObjectId>, m: Move) {
    && m.from != "" && Selected(names, tracked, records, m, m.from) &&
        Selected(names, tracked, records, m, m.from + "/")
    && Dest(m, m.from).Some? && names[m.from] != names[m.from + "/"]
  }

  lemma CollectedStep(before: map<Name, ObjectId>, changes: seq<Change>, i: nat,
                      moved: seq<(Option<Name>, ObjectId)>, origin: seq<nat>)
    requires i < |changes| && Collected(before, changes, i, moved, origin)
    ensures changes[i].0 in before ==>
              Collected(before, changes, i + 1, moved + [(changes[i].1, before[changes[i].0])], origin + [i])
    ensures changes[i].0 !in before ==> Collected(before, changes, i + 1, moved, origin)
  {
  }

  lemma StillBound(before: map<Name, ObjectId>, changes: seq<Change>, i: nat)
    requires i < |changes| && DistinctOlds(changes)
    ensures changes[i].0 !in Olds(changes[..i])
  {
  }

  lemma OldsGrow(changes: seq<Change>, i: nat)
    requires i < |changes|
    ensures Olds(changes[..i + 1]) == Olds(changes[..i]) + {changes[i].0}
  {
  }

  lemma OldsDropped(names: map<Name, ObjectId>, tracked: set<Name>, changes: seq<Change>, i: nat)
    requires i < |changes|
    ensures names - Olds(changes[..i]) - {changes[i].0} == names - Olds(changes[..i + 1])
    ensures tracked - Olds(changes[..i]) - {changes[i].0} == tracked - Olds(changes[..i + 1])
    ensures Olds(changes[..i + 1]) <= names.Keys ==> Olds(changes[..i]) <= names.Keys && changes[i].0 in names
  {
  }

  lemma OldsAppend(changes: seq<Change>, c: Change)
    ensures Olds(changes + [c]) == Olds(changes) + {c.0}
  {
    assert (changes + [c])[..|changes|] == changes;
    assert (changes + [c])[..|changes| + 1] == changes + [c];
    OldsGrow(changes + [c], |changes|);
  }

  lemma TwinsShareTarget(m: Move)
    requires m.from != ""
    ensures Dest(m, m.from + "/") == Dest(m, m.from)
  {
  }

  /** Each change keeps the rest of its name, and no name outside the request is among them. */
  lemma WhatChanges(names: map<Name, ObjectId>, tracked: set<Name>, records: set<ObjectId>, m: Move,
                    changes: seq<Change>)
    requires forall i :: 0 <= i < |changes| ==> changes[i].1 == Dest(m, changes[i].0)
    requires forall n :: n in Olds(changes) <==> Selected(names, tracked, records, m, n)
    ensures forall n :: n in Olds(changes) <==> n in names && names[n] in records && !Outside(tracked, m, n)
    ensures m.to.Some? ==> forall i :: 0 <= i < |changes| ==>
              Suffix(changes[i].0, m.from).Some? &&
              (changes[i].1.Some? <==> m.included(Target(m.to.value, Suffix(changes[i].0, m.from).value)))
    ensures m.to.Some? ==> forall i :: 0 <= i < |changes| && changes[i].1.Some? ==>
              Suffix(changes[i].1.value, m.to.value) == Suffix(changes[i].0, m.from)
  {
    forall n ensures n in Olds(changes) <==> n in names && names[n] in records && !Outside(tracked, m, n) {
      SuffixIff(n, m.from);
    }
    forall i | 0 <= i < |changes| ensures changes[i].0 in Olds(changes) { }
    if m.to.Some? {
      forall i | 0 <= i < |changes| && changes[i].1.Some?
        ensures Suffix(changes[i].1.value, m.to.value) == Suffix(changes[i].0, m.from)
      {
        assert changes[i].0 in Olds(changes);
        TargetIsUnder(m.to.value, Suffix(changes[i].0, m.from).value);
      }
    }
  }

  /** The changes of a move are compatible exactly without slash twins. */
  lemma CompatibleIff(names: map<Name, ObjectId>, tracked: set<Name>, records: set<ObjectId>, m: Move,
                      changes: seq<Change>)
    requires DistinctOlds(changes)
    requires forall i :: 0 <= i < |changes| ==> changes[i].1 == Dest(m, changes[i].0)
    requires forall n :: n in Olds(changes) <==> Selected(names, tracked, records, m, n)
    ensures Compatible(names, changes) <==> !SlashTwins(names, tracked, records, m)
  {
    var twin := m.from + "/";
    if SlashTwins(names, tracked, records, m) {
      TwinsShareTarget(m);
      assert m.from in Olds(changes) && twin in Olds(changes);
      var i, j :| 0 <= i < |changes| && 0 <= j < |changes| && changes[i].0 == m.from && changes[j].0 == twin;
      assert changes[i].1 == changes[j].1 && i != j;
    } else {
      forall i, j | 0 <= i < j < |changes| && changes[i].1.Some? && changes[i].0 in names && changes[j].0 in names
        ensures changes[i].1 != changes[j].1 || names[changes[i].0] == names[changes[j].0]
      {
        assert changes[i].0 in Olds(changes) && changes[j].0 in Olds(changes);
        if changes[j].1.Some? {
          TargetsCollideIff(m.from, m.to.value, changes[i].0, changes[j].0);
          if m.from != "" { TwinsShareTarget(m); }
        }
      }
    }
  }

  lemma TargetsAreMoved(before: map<Name, ObjectId>, changes: seq<Change>,
                        moved: seq<(Option<Name>, ObjectId)>, origin: seq<nat>)
    requires Collected(before, changes, |changes|, moved, origin)
    ensures forall n :: IsTarget(before, changes, n) <==> exists k :: 0 <= k < |moved| && moved[k].0 == Some(n)
  {
  }

  lemma OthersKept(before: map<Name, ObjectId>, changes: seq<Change>,
                   moved: seq<(Option<Name>, ObjectId)>, origin: seq<nat>)
    requires Collected(before, changes, |changes|, moved, origin)
    ensures OthersStay(before, PutAll(before - Olds(changes), moved), changes)
  {
    hide PutAll;
    var cleared := before - Olds(changes);
    var after := PutAll(cleared, moved);
    forall n | !IsTarget(before, changes, n) ensures n in after <==> n in cleared
                                             ensures n in cleared ==> n in after && after[n] == cleared[n] {
      forall j | 0 <= j < |moved| ensures moved[j].0 != Some(n) {
        assert moved[j].0 == changes[origin[j]].1;
      }
      PutAllKeeps(cleared, moved, n);
    }
  }

  lemma MovedSubstitutes(before: map<Name, ObjectId>, changes: seq<Change>,
                         moved: seq<(Option<Name>, ObjectId)>, origin: seq<nat>)
    requires Compatible(before, changes) && Collected(before, changes, |changes|, moved, origin)
    ensures Substituted(before, PutAll(before - Olds(changes), moved), changes)
  {
    hide PutAll;
    var cleared := before - Olds(changes);
    var after := PutAll(cleared, moved);
    forall i | 0 <= i < |changes| && changes[i].1.Some? && changes[i].0 in before
      ensures changes[i].1.value in after && after[changes[i].1.value] == before[changes[i].0]
    {
      var k :| 0 <= k < |origin| && origin[k] == i;
      assert moved[k] == (changes[i].1, before[changes[i].0]);
      forall l | k < l < |moved| ensures moved[l].0 != moved[k].0 || moved[l].1 ==
          moved[k].1 { assert origin[k] < origin[l]; }
      PutAllBinds(cleared, moved, k);
    }
    OthersKept(before, changes, moved, origin);
  }

  /** Without compatibility no outcome is a substitution: two objects want one name. */
  lemma NeverSubstituted(before: map<Name, ObjectId>, after: map<Name, ObjectId>, changes: seq<Change>)
    requires !Compatible(before, changes)
    ensures !Substituted(before, after, changes)
  {
  }

  /** For instance, moving `a` to `b` while `a` and `a/` are bound leaves object 1 without a name. */
  lemma SlashTwinLosesABinding()
    ensures var m := Move("a", Some("b"), _ => true, _ => true);
            && Dest(m, "a") == Some("b") && Dest(m, "a/") == Some("b")
            && PutAll(map["a" := 1, "a/" := 2] - {"a", "a/"}, [(Some("b"), 1), (Some("b"), 2)]) == map["b" := 2]
  {
    assert "a/"[1] == '/' && "a/"[..1] == "a" && "a/"[2..] == "";
    var two: seq<(Option<Name>, ObjectId)> := [(Some("b"), 1), (Some("b"), 2)];
    assert two[..1] == [(Some("b"), 1)] && two[..1][..0] == [];
    assert map["a" := 1, "a/" := 2] - {"a", "a/"} == map[];
    assert PutAll(map[], two[..1]) == map["b" := 1];
  }
}
