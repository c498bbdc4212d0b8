/** The watcher's event queue: pairing the two halves of a rename, expiry of unpaired halves, and
    remapping of deferred writes when a rename is applied. */
module Watcher {
  import opened Basics

  type Path = seq<string>      // normalised components
  type Time = nat
  type Tracker = nat

  const RENAME_TIMEOUT: nat := 2000  // milliseconds

  /** `ticket` numbers the arrivals of "From" paths; it is history, no decision reads it. */
  datatype Waiting = Waiting(path: Path, since: Time, ticket: nat)
  datatype Rename = Rename(from: Path, to: Option<Path>, ticket: nat)
  datatype Update = Update(due: Time, retry: Time)

  datatype Event =
    | Both(from: Path, to: Path)
    | From(from: Path, tracker: Option<Tracker>)
    | To(to: Path, tracker: Option<Tracker>)
    | Remove(paths: seq<Path>)
    | Touch(paths: seq<Path>)    // any other create or modify event

  /** Where an arrival is. */
  datatype Place = Tracked(tracker: Tracker) | Untracked | Queued | Applied

  predicate Expired(w: Waiting, now: Time) {
    w.since <= now && now - w.since >= RENAME_TIMEOUT
  }

  function Tickets(ws: seq<Waiting>): seq<nat> {
    seq(|ws|, i requires 0 <= i < |ws| => ws[i].ticket)
  }

  function QueueTickets(rs: seq<Rename>): seq<nat> {
    seq(|rs|, i requires 0 <= i < |rs| => rs[i].ticket)
  }

  // ---------------------------------------------------------------- every arrival in one place

  /** History: the path each ticket arrived with, and where the ticket is now. */
  datatype Ledger = Ledger(path: map<nat, Path>, place: map<nat, Place>)

  function Filed(l: Ledger, t: nat, path: Path, here: Place): Ledger {
    Ledger(l.path[t := path], l.place[t := here])
  }

  function Moved(l: Ledger, t: nat, there: Place): Ledger {
    l.(place := l.place[t := there])
  }

  /** The tickets listed, each once, are exactly those at `here`. */
  ghost predicate Holds(tickets: seq<nat>, here: Place, place: map<nat, Place>) {
    && (forall i :: 0 <= i < |tickets| ==> tickets[i] in place && place[tickets[i]] == here)
    && (forall i, j :: 0 <= i < j < |tickets| ==> tickets[i] != tickets[j])
    && (forall t :: t in place && place[t] == here ==> t in tickets)
  }

  ghost predicate HoldsTracked(tracked: map<Tracker, Waiting>, place: map<nat, Place>) {
    && (forall k :: k in tracked ==> tracked[k].ticket in place && place[tracked[k].ticket] == Tracked(k))
    && (forall t :: t in place && place[t].Tracked? ==>
        place[t].tracker in tracked && tracked[place[t].tracker].ticket == t)
  }

  /** Entries carry the path their ticket arrived with. */
  ghost predicate PathsKept(tracked: map<Tracker, Waiting>, untracked: seq<Waiting>, renames: seq<Rename>,
                            path: map<nat, Path>) {
    && (forall k :: k in tracked ==> tracked[k].ticket in path && tracked[k].path == path[tracked[k].ticket])
    && (forall i :: 0 <= i < |untracked| ==>
        untracked[i].ticket in path && untracked[i].path == path[untracked[i].ticket])
    && (forall i :: 0 <= i < |renames| ==> renames[i].ticket in path && renames[i].from == path[renames[i].ticket])
  }

  /** Every "From" path that arrived is waiting by tracker, waiting untracked, queued or applied:
      in exactly one of these, once. */
  ghost predicate Placed(tracked: map<Tracker, Waiting>, untracked: seq<Waiting>, renames: seq<Rename>, l: Ledger) {
    && l.path.Keys == l.place.Keys
    && HoldsTracked(tracked, l.place)
    && Holds(Tickets(untracked), Untracked, l.place)
    && Holds(QueueTickets(renames), Queued, l.place)
    && PathsKept(tracked, untracked, renames, l.path)
  }

  lemma HoldsAppend(tickets: seq<nat>, here: Place, place: map<nat, Place>, t: nat)
    requires Holds(tickets, here, place) && (t in place ==> place[t] != here)
    ensures Holds(tickets + [t], here, place[t := here])
  {
  }

  lemma HoldsDropFirst(tickets: seq<nat>, here: Place, place: map<nat, Place>, there: Place)
    requires Holds(tickets, here, place) && tickets != [] && there != here
    ensures Holds(tickets[1..], here, place[tickets[0] := there])
  {
  }

  lemma HoldsElsewhere(tickets: seq<nat>, here: Place, place: map<nat, Place>, t: nat, there: Place)
    requires Holds(tickets, here, place) && there != here && (t in place ==> place[t] != here)
    ensures Holds(tickets, here, place[t := there])
  {
  }

  lemma FirstHeld(tickets: seq<nat>, here: Place, place: map<nat, Place>)
    requires Holds(tickets, here, place) && tickets != []
    ensures tickets[0] in place && place[tickets[0]] == here
  {
  }

  lemma TicketLists(untracked: seq<Waiting>, w: Waiting, renames: seq<Rename>, r: Rename)
    ensures Tickets(untracked + [w]) == Tickets(untracked) + [w.ticket]
    ensures QueueTickets(renames + [r]) == QueueTickets(renames) + [r.ticket]
    ensures untracked != [] ==> |Tickets(untracked)| > 0 && Tickets(untracked)[0] == untracked[0].ticket
    ensures untracked != [] ==> Tickets(untracked[1..]) == Tickets(untracked)[1..]
    ensures renames != [] ==> |QueueTickets(renames)| > 0 && QueueTickets(renames)[0] == renames[0].ticket
    ensures renames != [] ==> QueueTickets(renames[1..]) == QueueTickets(renames)[1..]
  {
  }

  /** Filing a new ticket keeps all other paths. */
  lemma PathsFiled(tracked: map<Tracker, Waiting>, untracked: seq<Waiting>, renames: seq<Rename>,
                   path: map<nat, Path>, t: nat, p: Path)
    requires PathsKept(tracked, untracked, renames, path) && t !in path
    ensures PathsKept(tracked, untracked, renames, path[t := p])
  {
  }

  lemma PathsAppended(tracked: map<Tracker, Waiting>, untracked: seq<Waiting>, renames: seq<Rename>,
                   path: map<nat, Path>, r: Rename)
    requires PathsKept(tracked, untracked, renames, path) && r.ticket in path && r.from == path[r.ticket]
    ensures PathsKept(tracked, untracked, renames + [r], path)
  {
  }

  lemma TrackedElsewhere(tracked: map<Tracker, Waiting>, place: map<nat, Place>, t: nat, there: Place)
    requires HoldsTracked(tracked, place) && !there.Tracked? && (t in place ==> !place[t].Tracked?)
    ensures HoldsTracked(tracked, place[t := there])
  {
  }

  /** A new arrival goes straight to the queue. */
  lemma ArriveQueued(tracked: map<Tracker, Waiting>, untracked: seq<Waiting>, renames: seq<Rename>, l: Ledger,
                     r: Rename)
    requires Placed(tracked, untracked, renames, l) && r.ticket !in l.place
    ensures Placed(tracked, untracked, renames + [r], Filed(l, r.ticket, r.from, Queued))
  {
    hide Holds, HoldsTracked, PathsKept, Tickets, QueueTickets;
    TicketLists([], Waiting([], 0, 0), renames, r);
    HoldsAppend(QueueTickets(renames), Queued, l.place, r.ticket);
    HoldsElsewhere(Tickets(untracked), Untracked, l.place, r.ticket, Queued);
    TrackedElsewhere(tracked, l.place, r.ticket, Queued);
    PathsFiled(tracked, untracked, renames, l.path, r.ticket, r.from);
    PathsAppended(tracked, untracked, renames, l.path[r.ticket := r.from], r);
  }

  lemma TrackedAdded(tracked: map<Tracker, Waiting>, untracked: seq<Waiting>, renames: seq<Rename>, l: Ledger,
                     k: Tracker, w: Waiting)
    requires HoldsTracked(tracked, l.place) && PathsKept(tracked, untracked, renames, l.path)
    requires w.ticket !in l.place && w.ticket !in l.path && k !in tracked
    ensures HoldsTracked(tracked[k := w], l.place[w.ticket := Tracked(k)])
    ensures PathsKept(tracked[k := w], untracked, renames, l.path[w.ticket := w.path])
  {
  }

  lemma ArriveTracked(tracked: map<Tracker, Waiting>, untracked: seq<Waiting>, renames: seq<Rename>, l: Ledger,
                      k: Tracker, w: Waiting)
    requires Placed(tracked, untracked, renames, l) && w.ticket !in l.place && k !in tracked
    ensures Placed(tracked[k := w], untracked, renames, Filed(l, w.ticket, w.path, Tracked(k)))
  {
    hide Holds, HoldsTracked, PathsKept, Tickets, QueueTickets;
    HoldsElsewhere(QueueTickets(renames), Queued, l.place, w.ticket, Tracked(k));
    HoldsElsewhere(Tickets(untracked), Untracked, l.place, w.ticket, Tracked(k));
    TrackedAdded(tracked, untracked, renames, l, k, w);
  }

  lemma UntrackedAppended(tracked: map<Tracker, Waiting>, untracked: seq<Waiting>, renames: seq<Rename>,
                          path: map<nat, Path>, w: Waiting)
    requires PathsKept(tracked, untracked, renames, path) && w.ticket in path && w.path == path[w.ticket]
    ensures PathsKept(tracked, untracked + [w], renames, path)
  {
  }

  lemma ArriveUntracked(tracked: map<Tracker, Waiting>, untracked: seq<Waiting>, renames: seq<Rename>, l: Ledger,
                        w: Waiting)
    requires Placed(tracked, untracked, renames, l) && w.ticket !in l.place
    ensures Placed(tracked, untracked + [w], renames, Filed(l, w.ticket, w.path, Untracked))
  {
    hide Holds, HoldsTracked, PathsKept, Tickets, QueueTickets;
    TicketLists(untracked, w, [], Rename([], None, 0));
    HoldsAppend(Tickets(untracked), Untracked, l.place, w.ticket);
    HoldsElsewhere(QueueTickets(renames), Queued, l.place, w.ticket, Untracked);
    TrackedElsewhere(tracked, l.place, w.ticket, Untracked);
    PathsFiled(tracked, untracked, renames, l.path, w.ticket, w.path);
    UntrackedAppended(tracked, untracked, renames, l.path[w.ticket := w.path], w);
  }

  lemma TrackedTaken(tracked: map<Tracker, Waiting>, untracked: seq<Waiting>, renames: seq<Rename>, l: Ledger,
                     k: Tracker)
    requires HoldsTracked(tracked, l.place) && PathsKept(tracked, untracked, renames, l.path) && k in tracked
    ensures var t := tracked[k].ticket;
            && t in l.place && l.place[t] == Tracked(k)
            && t in l.path && tracked[k].path == l.path[t]
            && HoldsTracked(tracked - {k}, l.place[t := Queued])
            && PathsKept(tracked - {k}, untracked, renames, l.path)
  {
  }

  /** A tracked half is paired, superseded or expired: it moves to the queue. */
  lemma QueueTracked(tracked: map<Tracker, Waiting>, untracked: seq<Waiting>, renames: seq<Rename>, l: Ledger,
                     k: Tracker, r: Rename)
    requires Placed(tracked, untracked, renames, l) && k in tracked
    requires r.from == tracked[k].path && r.ticket == tracked[k].ticket
    ensures r.ticket in l.place
    ensures Placed(tracked - {k}, untracked, renames + [r], Moved(l, r.ticket, Queued))
  {
    hide Holds, HoldsTracked, PathsKept, Tickets, QueueTickets;
    TrackedTaken(tracked, untracked, renames, l, k);
    TicketLists([], Waiting([], 0, 0), renames, r);
    HoldsAppend(QueueTickets(renames), Queued, l.place, r.ticket);
    HoldsElsewhere(Tickets(untracked), Untracked, l.place, r.ticket, Queued);
    PathsAppended(tracked - {k}, untracked, renames, l.path, r);
  }

  lemma FirstsDropped(tracked: map<Tracker, Waiting>, untracked: seq<Waiting>, renames: seq<Rename>,
                      path: map<nat, Path>)
    requires PathsKept(tracked, untracked, renames, path)
    ensures untracked != [] ==>
              untracked[0].ticket in path && untracked[0].path == path[untracked[0].ticket] &&
                  PathsKept(tracked, untracked[1..], renames, path)
    ensures renames != [] ==> PathsKept(tracked, untracked, renames[1..], path)
  {
  }

  lemma QueueUntracked(tracked: map<Tracker, Waiting>, untracked: seq<Waiting>, renames: seq<Rename>, l: Ledger,
                       r: Rename)
    requires Placed(tracked, untracked, renames, l) && untracked != []
    requires r.from == untracked[0].path && r.ticket == untracked[0].ticket
    ensures r.ticket in l.place
    ensures Placed(tracked, untracked[1..], renames + [r], Moved(l, r.ticket, Queued))
  {
    hide Holds, HoldsTracked, PathsKept, Tickets, QueueTickets;
    TicketLists(untracked, untracked[0], renames, r);
    FirstHeld(Tickets(untracked), Untracked, l.place);
    HoldsDropFirst(Tickets(untracked), Untracked, l.place, Queued);
    HoldsAppend(QueueTickets(renames), Queued, l.place, r.ticket);
    TrackedElsewhere(tracked, l.place, r.ticket, Queued);
    FirstsDropped(tracked, untracked, renames, l.path);
    PathsAppended(tracked, untracked[1..], renames, l.path, r);
  }

  lemma PopQueued(tracked: map<Tracker, Waiting>, untracked: seq<Waiting>, renames: seq<Rename>, l: Ledger)
    requires Placed(tracked, untracked, renames, l) && renames != []
    ensures renames[0].ticket in l.place && l.place[renames[0].ticket] == Queued
    ensures Placed(tracked, untracked, renames[1..], Moved(l, renames[0].ticket, Applied))
  {
    hide Holds, HoldsTracked, PathsKept, Tickets, QueueTickets;
    TicketLists([], Waiting([], 0, 0), renames, renames[0]);
    FirstHeld(QueueTickets(renames), Queued, l.place);
    HoldsDropFirst(QueueTickets(renames), Queued, l.place, Applied);
    HoldsElsewhere(Tickets(untracked), Untracked, l.place, renames[0].ticket, Applied);
    TrackedElsewhere(tracked, l.place, renames[0].ticket, Applied);
    FirstsDropped(tracked, untracked, renames, l.path);
  }

  // ---------------------------------------------------------------- waiting times

  /** Waiting times never run ahead of the clock, and untracked halves wait in order. */
  predicate Timed(tracked: map<Tracker, Waiting>, untracked: seq<Waiting>, clock: Time) {
    && (forall k :: k in tracked ==> tracked[k].since <= clock)
    && (forall i :: 0 <= i < |untracked| ==> untracked[i].since <= clock)
    && (forall i, j :: 0 <= i < j < |untracked| ==> untracked[i].since <= untracked[j].since)
  }

  /** The halves still waiting at `now`. */
  function LiveTracked(tracked: map<Tracker, Waiting>, now: Time): map<Tracker, Waiting> {
    map k | k in tracked && !Expired(tracked[k], now) :: tracked[k]
  }

  function Live(untracked: seq<Waiting>, now: Time): seq<Waiting> {
    if untracked != [] && Expired(untracked[0], now) then Live(untracked[1..], now) else untracked
  }

  lemma LiveOnes(before: map<Tracker, Waiting>, after: map<Tracker, Waiting>, now: Time)
    requires forall k :: k in after ==> k in before && after[k] == before[k] && !Expired(after[k], now)
    requires forall k :: k in before && !Expired(before[k], now) ==> k in after
    ensures after == LiveTracked(before, now)
  {
  }

  predicate NoneExpired(tracked: map<Tracker, Waiting>, untracked: seq<Waiting>, now: Time) {
    && (forall k :: k in tracked ==> now < tracked[k].since + 2000)
    && (forall i :: 0 <= i < |untracked| ==> now < untracked[i].since + 2000)
  }

  // ---------------------------------------------------------------- the queue

  /** The arrivals applied so far. */
  ghost function AppliedIn(place: map<nat, Place>): set<nat> {
    set t | t in place && place[t].Applied?
  }

  lemma RequeuedSame(l: Ledger, t: nat)
    requires t in l.place && !l.place[t].Applied?
    ensures AppliedIn(Moved(l, t, Queued).place) == AppliedIn(l.place)
  {
  }

  lemma NowApplied(l: Ledger, t: nat)
    ensures AppliedIn(Moved(l, t, Applied).place) == AppliedIn(l.place) + {t}
  {
  }

  lemma FiledSame(l: Ledger, t: nat, path: Path, here: Place)
    requires t !in l.place && !here.Applied?
    ensures AppliedIn(Filed(l, t, path, here).place) == AppliedIn(l.place)
  {
  }

  lemma HeldIsNotApplied(tracked: map<Tracker, Waiting>, untracked: seq<Waiting>, renames: seq<Rename>, l: Ledger)
    requires Placed(tracked, untracked, renames, l)
    ensures forall k :: k in tracked ==> tracked[k].ticket in l.place && !l.place[tracked[k].ticket].Applied?
    ensures forall i :: 0 <= i < |untracked| ==>
            untracked[i].ticket in l.place && !l.place[untracked[i].ticket].Applied?
  {
    forall i | 0 <= i < |untracked| ensures untracked[i].ticket in l.place && !l.place[untracked[i].ticket].Applied? {
      assert Tickets(untracked)[i] == untracked[i].ticket;
    }
  }

  /** The queue's real fields, as a value. */
  datatype Queue = Queue(updates: map<Path, Update>, renames: seq<Rename>, tracked: map<Tracker, Waiting>,
                         untracked: seq<Waiting>, next: nat)

  class Pending {
    var updates: map<Path, Update>
    var renames: seq<Rename>
    var tracked: map<Tracker, Waiting>
    var untracked: seq<Waiting>
    var generation: nat
    ghost var ledger: Ledger
    var next: nat                // next ticket
    ghost var clock: Time        // latest instant seen

    ghost predicate Valid()
      reads this
    {
      && Placed(tracked, untracked, renames, ledger)
      && (forall t :: t in ledger.place ==> t < next)
      && Timed(tracked, untracked, clock)
    }

    constructor ()
      ensures Valid() && renames == [] && updates == map[] && next == 0
    {
      updates, renames, tracked, untracked, generation := map[], [], map[], [], 0;
      ledger, next, clock := Ledger(map[], map[]), 0, 0;
    }

    method Enqueue(path: Path, due: Time)
      modifies this`updates
      ensures updates == old(updates)[path := Update(due, 0)]
    {
      updates := updates[path := Update(due, 0)];
    }

    /** What expiry may change: it queues removals, and forgets nothing. */
    twostate predicate OnlyExpires(now: Time)
      reads this
    {
      && clock == now && old(renames) <= renames
      && (forall i :: |old(renames)| <= i < |renames| ==> renames[i].to == None)
      && (forall k :: k in tracked ==> k in old(tracked) && tracked[k] == old(tracked)[k])
      && (forall k :: k in old(tracked) && !Expired(old(tracked)[k], now) ==> k in tracked)
      && ledger.path == old(ledger).path && ledger.place.Keys == old(ledger).place.Keys
      && AppliedIn(ledger.place) == AppliedIn(old(ledger).place)
    }

    /** One half that waits by tracker becomes a removal. */
    method ExpireOne(k: Tracker)
      requires Valid() && k in tracked
      modifies this`renames, this`tracked, this`ledger
      ensures Valid() && tracked == old(tracked) - {k}
      ensures renames == old(renames) + [Rename(old(tracked)[k].path, None, old(tracked)[k].ticket)]
      ensures ledger.path == old(ledger).path && ledger.place.Keys == old(ledger).place.Keys
      ensures AppliedIn(ledger.place) == AppliedIn(old(ledger).place)
    {
      hide Placed, AppliedIn;
      var r := Rename(tracked[k].path, None, tracked[k].ticket);
      HeldIsNotApplied(tracked, untracked, renames, ledger);
      RequeuedSame(ledger, r.ticket);
      QueueTracked(tracked, untracked, renames, ledger, k, r);
      renames, tracked, ledger := renames + [r], tracked - {k}, Moved(ledger, r.ticket, Queued);
    }

    method ExpireTracked(now: Time)
      requires Valid() && clock <= now
      modifies this`renames, this`tracked, this`ledger, this`clock
      ensures Valid() && OnlyExpires(now)
      ensures forall k :: k in tracked ==> !Expired(tracked[k], now)
    {
      hide Placed, AppliedIn;
      clock := now;
      var todo := tracked.Keys;
      while todo != {}
        invariant Valid() && OnlyExpires(now)
        invariant todo <= tracked.Keys
        invariant forall k :: k in tracked && k !in todo ==> !Expired(tracked[k], now)
        decreases todo
      {
        var k :| k in todo;
        if Expired(tracked[k], now) { ExpireOne(k); }
        todo := todo - {k};
      }
    }

    method ExpireUntracked(now: Time)
      requires Valid() && clock == now
      modifies this`renames, this`untracked, this`ledger
      ensures Valid() && OnlyExpires(now)
      ensures untracked == Live(old(untracked), now) && forall i :: 0 <= i < |untracked| ==> !Expired(untracked[i], now)
    {
      hide Placed, AppliedIn;
      while untracked != [] && Expired(untracked[0], now)
        invariant Valid() && OnlyExpires(now)
        invariant Live(untracked, now) == Live(old(untracked), now)
        decreases |untracked|
      {
        var r := Rename(untracked[0].path, None, untracked[0].ticket);
        HeldIsNotApplied(tracked, untracked, renames, ledger);
        RequeuedSame(ledger, r.ticket);
        QueueUntracked(tracked, untracked, renames, ledger, r);
        renames, untracked, ledger := renames + [r], untracked[1..], Moved(ledger, r.ticket, Queued);
      }
    }

    /** `expire_renames`: exactly the halves that waited too long become removals. */
    method ExpireRenames(now: Time)
      requires Valid() && clock <= now
      modifies this`renames, this`tracked, this`untracked, this`ledger, this`clock
      ensures Valid() && OnlyExpires(now)
      ensures tracked == LiveTracked(old(tracked), now) && untracked == Live(old(untracked), now)
      ensures NoneExpired(tracked, untracked, now)
    {
      hide Placed, AppliedIn, LiveTracked, Live;
      ExpireTracked(now);
      LiveOnes(old(tracked), tracked, now);
      ExpireUntracked(now);
    }

    /** The part of `apply_rename` that remaps deferred writes, in whatever order the map lists the
        moved paths. */
    method ShiftUpdates(m: Shift) returns (ghost order: seq<Path>)
      modifies this`updates
      ensures Distinct(order) && forall p :: p in order <==> p in old(updates) && Under(p, m.from)
      ensures forall i :: 0 <= i < |order| ==> Under(order[i], m.from)
      ensures updates == ShiftAll(old(updates), order, m)
    {
      var todo := set p | p in updates && Under(p, m.from);
      order := [];
      while todo != {}
        invariant todo <= old(updates).Keys
        invariant Distinct(order) && forall p :: p in order <==> p !in todo && p in old(updates) && Under(p, m.from)
        invariant forall i :: 0 <= i < |order| ==> Under(order[i], m.from)
        invariant forall p :: p in todo ==> Under(p, m.from) && p in updates
        invariant updates == ShiftAll(old(updates), order, m)
        decreases todo
      {
        var p :| p in todo;
        assert (order + [p])[..|order|] == order;
        var update := updates[p];
        updates := updates - {p};
        var q := NewPath(m, p);
        if q.Some? {
          updates := updates[q.value := if q.value in updates then Later(updates[q.value], update) else update];
        }
        order := order + [p];
        todo := todo - {p};
      }
    }

    // ------------------------------------------------------------ one event

    /** Arrivals are only added and the queue only grows at its end. */
    twostate predicate Extends()
      reads this
    {
      && old(renames) <= renames && old(next) <= next
      && (forall t :: t in old(ledger).path ==> t in ledger.path && ledger.path[t] == old(ledger).path[t])
      && (forall t :: old(next) <= t < next ==> t in ledger.path)
      && AppliedIn(ledger.place) == AppliedIn(old(ledger).place)
    }

    method FileQueued(from: Path, to: Option<Path>)
      requires Valid()
      modifies this`renames, this`ledger, this`next
      ensures Valid() && Extends() && next == old(next) + 1 && ledger.path[old(next)] == from
      ensures renames == old(renames) + [Rename(from, to, old(next))]
    {
      hide Placed, AppliedIn;
      TicketsInPaths(this.tracked, untracked, renames, ledger);
      var r := Rename(from, to, next);
      FiledSame(ledger, next, from, Queued);
      ArriveQueued(tracked, untracked, renames, ledger, r);
      renames, ledger, next := renames + [r], Filed(ledger, next, from, Queued), next + 1;
    }

    /** A tracked half replaces a half of the same tracker, which becomes a removal. */
    method FileTracked(k: Tracker, from: Path, now: Time)
      requires Valid() && clock == now
      modifies this`renames, this`tracked, this`ledger, this`next
      ensures Valid() && Extends() && next == old(next) + 1 && ledger.path[old(next)] == from
      ensures tracked == old(tracked)[k := Waiting(from, now, old(next))]
      ensures k !in old(tracked) ==> renames == old(renames)
      ensures k in old(tracked) ==> renames == old(renames) + [Rename(old(tracked)[k].path, None,
              old(tracked)[k].ticket)]
    {
      hide Placed, AppliedIn;
      TicketsInPaths(this.tracked, untracked, renames, ledger);
      var w := Waiting(from, now, next);
      if k in tracked {
        var r := Rename(tracked[k].path, None, tracked[k].ticket);
        HeldIsNotApplied(tracked, untracked, renames, ledger);
        RequeuedSame(ledger, r.ticket);
        QueueTracked(tracked, untracked, renames, ledger, k, r);
        renames, tracked, ledger := renames + [r], tracked - {k}, Moved(ledger, r.ticket, Queued);
      }
      FiledSame(ledger, next, from, Tracked(k));
      ArriveTracked(tracked, untracked, renames, ledger, k, w);
      tracked, ledger, next := tracked[k := w], Filed(ledger, next, from, Tracked(k)), next + 1;
    }

    method FileUntracked(from: Path, now: Time)
      requires Valid() && clock == now
      modifies this`untracked, this`ledger, this`next
      ensures Valid() && Extends() && next == old(next) + 1 && ledger.path[old(next)] == from
      ensures untracked == old(untracked) + [Waiting(from, now, old(next))]
    {
      hide Placed, AppliedIn;
      TicketsInPaths(this.tracked, untracked, renames, ledger);
      var w := Waiting(from, now, next);
      FiledSame(ledger, next, from, Untracked);
      ArriveUntracked(tracked, untracked, renames, ledger, w);
      untracked, ledger, next := untracked + [w], Filed(ledger, next, from, Untracked), next + 1;
    }

    /** The other half of a rename: by tracker, or the oldest untracked one. */
    method Pair(to: Path, tracker: Option<Tracker>) returns (paired: bool)
      requires Valid()
      modifies this`renames, this`tracked, this`untracked, this`ledger
      ensures Valid() && Extends()
      ensures paired <==> if tracker.Some? then tracker.value in old(tracked) else old(untracked) != []
      ensures paired && tracker.Some? ==>
                var w := old(tracked)[tracker.value];
                renames == old(renames) + [Rename(w.path, Some(to), w.ticket)] &&
                    tracked == old(tracked) - {tracker.value} && untracked == old(untracked)
      ensures paired && tracker.None? ==>
                var w := old(untracked)[0];
                && renames == old(renames) + [Rename(w.path, Some(to), w.ticket)]
                && untracked == old(untracked)[1..] && tracked == old(tracked)
      ensures !paired ==> renames == old(renames) && tracked == old(tracked) && untracked == old(untracked)
    {
      hide Placed, AppliedIn;
      HeldIsNotApplied(tracked, untracked, renames, ledger);
      if tracker.Some? {
        if tracker.value !in tracked { return false; }
        var w := tracked[tracker.value];
        var r := Rename(w.path, Some(to), w.ticket);
        RequeuedSame(ledger, r.ticket);
        QueueTracked(tracked, untracked, renames, ledger, tracker.value, r);
        renames, tracked, ledger := renames + [r], tracked - {tracker.value}, Moved(ledger, r.ticket, Queued);
      } else {
        if untracked == [] { return false; }
        var r := Rename(untracked[0].path, Some(to), untracked[0].ticket);
        RequeuedSame(ledger, r.ticket);
        QueueUntracked(tracked, untracked, renames, ledger, r);
        renames, untracked, ledger := renames + [r], untracked[1..], Moved(ledger, r.ticket, Queued);
      }
      return true;
    }

    /** What an event makes of a queue that held `q`. */
    ghost predicate Handled(q: Queue, ev: Event, now: Time, debounce: nat)
      reads this
    {
      match ev
      case Both(from, to) =>
        && renames == q.renames + [Rename(from, Some(to), q.next)]
        && tracked == q.tracked && untracked == q.untracked && updates == q.updates
      case From(from, tracker) =>
        && updates == q.updates
        && (if tracker.None? then
              untracked == q.untracked + [Waiting(from, now, q.next)] && tracked == q.tracked && renames == q.renames
            else
              var k := tracker.value;
              && tracked == q.tracked[k := Waiting(from, now, q.next)] && untracked == q.untracked
              && renames == q.renames + if k in q.tracked then [Rename(q.tracked[k].path, None,
                  q.tracked[k].ticket)] else [])
      case To(to, tracker) =>
        if tracker.Some? && tracker.value in q.tracked then
          var w := q.tracked[tracker.value];
          && renames == q.renames + [Rename(w.path, Some(to), w.ticket)] && tracked == q.tracked - {tracker.value}
          && untracked == q.untracked && updates == q.updates
        else if tracker.None? && q.untracked != [] then
          var w := q.untracked[0];
          && renames == q.renames + [Rename(w.path, Some(to), w.ticket)] && untracked == q.untracked[1..]
          && tracked == q.tracked && updates == q.updates
        else
          && updates == q.updates[to := Update(now + debounce, 0)]
          && renames == q.renames && tracked == q.tracked && untracked == q.untracked
      case Remove(paths) =>
        && |renames| == |q.renames| + |paths| && q.renames <= renames
        && (forall i :: 0 <= i < |paths| ==> renames[|q.renames| + i] == Rename(paths[i], None, q.next + i))
        && tracked == q.tracked && untracked == q.untracked && updates == q.updates
      case Touch(paths) =>
        && (forall p :: p in updates <==> p in q.updates || p in paths)
        && (forall p :: p in updates ==> updates[p] == if p in paths then Update(now + debounce, 0) else q.updates[p])
        && renames == q.renames && tracked == q.tracked && untracked == q.untracked
    }

    /** `receive_event`, after path normalisation: what waited too long becomes a removal, then the
        event is handled. */
    method ReceiveEvent(ev: Event, now: Time, debounce: nat) returns (ghost expired: seq<Rename>)
      requires Valid() && clock <= now
      modifies this
      ensures Valid() && Extends() && clock == now && NoneExpired(tracked, untracked, now)
      ensures next == old(next) + Arriving(ev)
      ensures forall i :: 0 <= i < |expired| ==> expired[i].to == None
      ensures Handled(Queue(old(updates), old(renames) + expired, LiveTracked(old(tracked), now),
                            Live(old(untracked), now), old(next)),
                      ev, now, debounce)
    {
      hide Placed, AppliedIn, Handled, LiveTracked, Live;
      generation := (generation + 1) % 0x1_0000_0000_0000_0000;
      ExpireRenames(now);
      expired := renames[|old(renames)|..];
      assert old(renames) + expired == renames;
      Dispatch(ev, now, debounce);
    }

    method ReceiveFrom(from: Path, tracker: Option<Tracker>, now: Time, debounce: nat)
      requires Valid() && clock == now && NoneExpired(tracked, untracked, now)
      modifies this`renames, this`tracked, this`untracked, this`ledger, this`next
      ensures Valid() && Extends() && NoneExpired(tracked, untracked, now) && next == old(next) + 1
      ensures Handled(Queue(old(updates), old(renames), old(tracked), old(untracked), old(next)),
                      From(from, tracker), now, debounce)
    {
      hide Placed, AppliedIn;
      if tracker.Some? { FileTracked(tracker.value, from, now); } else { FileUntracked(from, now); }
    }

    method ReceiveTo(to: Path, tracker: Option<Tracker>, now: Time, debounce: nat)
      requires Valid() && clock == now && NoneExpired(tracked, untracked, now)
      modifies this`updates, this`renames, this`tracked, this`untracked, this`ledger
      ensures Valid() && Extends() && NoneExpired(tracked, untracked, now)
      ensures Handled(Queue(old(updates), old(renames), old(tracked), old(untracked), old(next)),
                      To(to, tracker), now, debounce)
    {
      hide Placed, AppliedIn;
      var paired := Pair(to, tracker);
      if !paired { Enqueue(to, now + debounce); }
    }

    /** The match on the event kind. */
    method Dispatch(ev: Event, now: Time, debounce: nat)
      requires Valid() && clock == now && NoneExpired(tracked, untracked, now)
      modifies this`updates, this`renames, this`tracked, this`untracked, this`ledger, this`next
      ensures Valid() && Extends() && NoneExpired(tracked, untracked, now)
      ensures next == old(next) + Arriving(ev)
      ensures Handled(Queue(old(updates), old(renames), old(tracked), old(untracked), old(next)), ev, now, debounce)
    {
      hide Placed, AppliedIn;
      match ev
      case Both(from, to) => FileQueued(from, Some(to));
      case From(from, tracker) => ReceiveFrom(from, tracker, now, debounce);
      case To(to, tracker) => ReceiveTo(to, tracker, now, debounce);
      case Remove(paths) => RemoveAll(paths, now);
      case Touch(paths) => TouchAll(paths, now + debounce);
    }

    method RemoveAll(paths: seq<Path>, now: Time)
      requires Valid() && clock == now && NoneExpired(tracked, untracked, now)
      modifies this`renames, this`ledger, this`next
      ensures Valid() && Extends() && next == old(next) + |paths|
      ensures |renames| == |old(renames)| + |paths|
      ensures forall i :: 0 <= i < |paths| ==> renames[|old(renames)| + i] == Rename(paths[i], None, old(next) + i)
    {
      hide Placed, AppliedIn;
      for i := 0 to |paths|
        invariant Valid() && Extends() && next == old(next) + i && |renames| == |old(renames)| + i
        invariant forall j :: 0 <= j < i ==> renames[|old(renames)| + j] == Rename(paths[j], None, old(next) + j)
      {
        FileQueued(paths[i], None);
      }
    }

    method TouchAll(paths: seq<Path>, due: Time)
      modifies this`updates
      ensures forall p :: p in updates <==> p in old(updates) || p in paths
      ensures forall p :: p in updates ==> updates[p] == if p in paths then Update(due, 0) else old(updates)[p]
    {
      for i := 0 to |paths|
        invariant forall p :: p in updates <==> p in old(updates) || p in paths[..i]
        invariant forall p :: p in updates ==> updates[p] == if p in paths[..i] then Update(due, 0) else old(updates)[p]
      {
        assert paths[..i + 1] == paths[..i] + [paths[i]];
        Enqueue(paths[i], due);
      }
      assert paths[..|paths|] == paths;
    }

    // ------------------------------------------------------------ applying the queue

    /** Events that arrive while the worker holds no lock. */
    method Arrivals(events: seq<(Event, Time)>, debounce: nat)
      requires Valid() && InOrder(clock, events)
      modifies this
      ensures Valid() && old(renames) <= renames && old(next) <= next &&
              AppliedIn(ledger.place) == AppliedIn(old(ledger).place)
      ensures clock == if events == [] then old(clock) else events[|events| - 1].1
      ensures forall p :: p in old(updates) ==> p in updates
      ensures events == [] ==> updates == old(updates)
    {
      hide Placed, AppliedIn;
      for i := 0 to |events|
        invariant Valid() && old(renames) <= renames && old(next) <= next
        invariant AppliedIn(ledger.place) == AppliedIn(old(ledger).place)
        invariant clock == if i == 0 then old(clock) else events[i - 1].1
        invariant i == 0 ==> updates == old(updates)
        invariant forall p :: p in old(updates) ==> p in updates
      {
        ghost var _ := ReceiveEvent(events[i].0, events[i].1, debounce);
      }
    }

    /** A deferred write for each path that has none yet. */
    method TouchAbsent(paths: seq<Path>, due: Time)
      modifies this`updates
      ensures forall p :: p in updates <==> p in old(updates) || p in paths
      ensures forall p :: p in updates ==> updates[p] == if p in old(updates) then old(updates)[p] else Update(due, 0)
    {
      for i := 0 to |paths|
        invariant forall p :: p in updates <==> p in old(updates) || p in paths[..i]
        invariant forall p :: p in updates ==>
                  updates[p] == if p in old(updates) then old(updates)[p] else Update(due, 0)
      {
        assert paths[..i + 1] == paths[..i] + [paths[i]];
        if paths[i] !in updates { updates := updates[paths[i] := Update(due, 0)]; }
      }
      assert paths[..|paths|] == paths;
    }

    /** `apply_rename` on the queue's side, once the engine has moved the names: a removal whose file is
        there again becomes a write; otherwise the deferred writes are remapped, and each file that was
        moved gets a write unless it has one. */
    method ApplyRename(r: Rename, included: Path -> bool, stillThere: bool, moved: seq<Path>, due: Time)
        returns (ghost order: seq<Path>)
      modifies this`updates
      ensures r.to.None? && stillThere ==> updates == old(updates)[r.from := Update(due, 0)]
      ensures !(r.to.None? && stillThere) ==>
                var m := Shift(r.from, r.to, included);
                && Listing(old(updates), m, order)
                && var shifted := ShiftAll(old(updates), order, m);
                && (forall p :: p in updates <==> p in shifted || p in moved)
                && (forall p :: p in updates ==> updates[p] == if p in shifted then shifted[p] else Update(due, 0))
      ensures Remaps(old(updates), order, updates, r, included, stillThere, moved, true)
    {
      order := [];
      if r.to.None? && stillThere {
        Enqueue(r.from, due);
        return;
      }
      order := ShiftUpdates(Shift(r.from, r.to, included));
      TouchAbsent(moved, due);
    }

    /** The front of the queue is applied outside the lock, events arriving before and after the remapping;
        `seen` are the deferred writes it finds. */
    method ApplyFront(r: Rename, before: seq<(Event, Time)>, after: seq<(Event, Time)>, debounce: nat,
                      included: Path -> bool, stillThere: bool, moved: seq<Path>, due: Time)
        returns (ghost seen: map<Path, Update>, ghost order: seq<Path>)
      requires Valid() && InOrder(clock, before + after)
      modifies this
      ensures Valid() && old(renames) <= renames && old(next) <= next &&
              AppliedIn(ledger.place) == AppliedIn(old(ledger).place)
      ensures forall p :: p in old(updates) ==> p in seen
      ensures Remaps(seen, order, updates, r, included, stillThere, moved, after == [])
    {
      hide Placed, AppliedIn, Remaps, InOrder, Timed;
      SplitOrder(clock, before, after);
      Arrivals(before, debounce);
      seen := updates;
      order := ApplyRename(r, included, stillThere, moved, due);
      ghost var applied := updates;
      Arrivals(after, debounce);
      LaterEventsAdd(seen, order, applied, updates, r, included, stillThere, moved, after == []);
    }

    /** One round of `process_renames`: expire, take the front, apply it, pop. The entry popped is the one
        applied, though events arrive in between, and the deferred writes are remapped for it. */
    method ProcessOne(now: Time, before: seq<(Event, Time)>, after: seq<(Event, Time)>, debounce: nat,
                      included: Path -> bool, stillThere: bool, moved: seq<Path>, due: Time)
        returns (action: Option<Rename>, ghost seen: map<Path, Update>, ghost order: seq<Path>)
      requires Valid() && clock <= now && InOrder(now, before + after)
      modifies this
      ensures Valid() && old(next) <= next
      ensures action.Some? ==> action.value.ticket in ledger.place && ledger.place[action.value.ticket] == Applied
      ensures action.Some? && old(renames) != [] ==> action.value == old(renames)[0]
      ensures action.None? ==> renames == [] && AppliedIn(ledger.place) == AppliedIn(old(ledger).place)
      ensures action.Some? ==> AppliedIn(ledger.place) == AppliedIn(old(ledger).place) + {action.value.ticket}
      ensures action.Some? ==> forall p :: p in old(updates) ==> p in seen
      ensures action.Some? ==> Remaps(seen, order, updates, action.value, included, stillThere, moved, after == [])
    {
      hide Placed, AppliedIn, Remaps, InOrder;
      seen, order := updates, [];
      ExpireRenames(now);
      if renames == [] { return None, seen, order; }
      action := Some(renames[0]);
      seen, order := ApplyFront(action.value, before, after, debounce, included, stillThere, moved, due);
      PopQueued(tracked, untracked, renames, ledger);
      NowApplied(ledger, renames[0].ticket);
      renames, ledger := renames[1..], Moved(ledger, renames[0].ticket, Applied);
    }
  }

  /** What a rename does to the deferred writes `seen`: the moved ones are remapped, in some order, and the
      moved files have writes. Later events only add; with none (`settled`) there is nothing else. */
  ghost predicate Remaps(seen: map<Path, Update>, order: seq<Path>, updates: map<Path, Update>, r: Rename,
                         included: Path -> bool, stillThere: bool, moved: seq<Path>, settled: bool) {
    if r.to.None? && stillThere then
      (forall p :: p in seen || p == r.from ==> p in updates) && (settled ==> updates.Keys == seen.Keys + {r.from})
    else
      var m := Shift(r.from, r.to, included);
      && Listing(seen, m, order)
      && var shifted := ShiftAll(seen, order, m);
      && (forall p :: p in shifted || p in moved ==> p in updates)
      && (settled ==> forall p :: p in updates ==> if p in shifted then updates[p] == shifted[p] else p in moved)
  }

  lemma LaterEventsAdd(seen: map<Path, Update>, order: seq<Path>, applied: map<Path, Update>,
                       updates: map<Path, Update>,
                       r: Rename, included: Path -> bool, stillThere: bool, moved: seq<Path>, settled: bool)
    requires Remaps(seen, order, applied, r, included, stillThere, moved, true)
    requires (forall p :: p in applied ==> p in updates) && (settled ==> updates == applied)
    ensures Remaps(seen, order, updates, r, included, stillThere, moved, settled)
  {
    hide Listing, ShiftAll;
  }

  /** Events with times that do not run backwards. */
  predicate InOrder(from: Time, events: seq<(Event, Time)>) {
    && (forall i :: 0 <= i < |events| ==> from <= events[i].1)
    && (forall i, j :: 0 <= i < j < |events| ==> events[i].1 <= events[j].1)
  }

  lemma SplitOrder(from: Time, a: seq<(Event, Time)>, b: seq<(Event, Time)>)
    requires InOrder(from, a + b)
    ensures InOrder(from, a) && InOrder(if a == [] then from else a[|a| - 1].1, b)
  {
    var all := a + b;
    forall i | 0 <= i < |a| ensures a[i] == all[i] { }
    forall i | 0 <= i < |b| ensures b[i] == all[|a| + i] { }
  }

  /** How many "From" paths an event brings. */
  function Arriving(ev: Event): nat {
    match ev
    case Both(_, _) => 1
    case From(_, _) => 1
    case To(_, _) => 0
    case Remove(paths) => |paths|
    case Touch(_) => 0
  }

  lemma TicketsInPaths(tracked: map<Tracker, Waiting>, untracked: seq<Waiting>, renames: seq<Rename>, l: Ledger)
    requires Placed(tracked, untracked, renames, l)
    ensures l.path.Keys == l.place.Keys
  {
  }

  // ---------------------------------------------------------------- deferred writes under a moved path

  /** Applying a rename: where it goes, and which paths the ignore rules admit. */
  datatype Shift = Shift(from: Path, to: Option<Path>, included: Path -> bool)

  predicate Under(p: Path, root: Path) {
    root <= p
  }

  /** The new path of a deferred write, unless it is dropped: a removal, or an excluded target. */
  function NewPath(m: Shift, p: Path): Option<Path>
    requires Under(p, m.from)
  {
    if m.to.None? then None
    else
      var q := m.to.value + p[|m.from|..];
      if m.included(q) then Some(q) else None
  }

  function Later(a: Update, b: Update): Update {
    Update(if a.due < b.due then b.due else a.due, if a.retry < b.retry then b.retry else a.retry)
  }

  /** A merged write is due, and retried, no sooner than either, and no later than the later one. */
  lemma LaterIsTheLater(a: Update, b: Update)
    ensures var u := Later(a, b);
            && u.due >= a.due && u.due >= b.due && (u.due == a.due || u.due == b.due)
            && u.retry >= a.retry && u.retry >= b.retry && (u.retry == a.retry || u.retry == b.retry)
  {
  }

  /** One round of the source's loop: take the write out, put it in at its new path, keeping the
      later due time if one is already there. */
  function ShiftOne(u: map<Path, Update>, p: Path, m: Shift): map<Path, Update>
    requires Under(p, m.from)
  {
    if p !in u then u
    else
      var rest := u - {p};
      var q := NewPath(m, p);
      if q.None? then rest
      else rest[q.value := if q.value in rest then Later(rest[q.value], u[p]) else u[p]]
  }

  /** The loop, over the moved paths in the order the hash map lists them. */
  function ShiftAll(u: map<Path, Update>, order: seq<Path>, m: Shift): map<Path, Update>
    requires forall i :: 0 <= i < |order| ==> Under(order[i], m.from)
  {
    if order == [] then u else ShiftOne(ShiftAll(u, order[..|order| - 1], m), order[|order| - 1], m)
  }

  /** The write that is sent to `q`, if it is among the moved ones. */
  function SourceOf(m: Shift, q: Path): Option<Path> {
    if m.to.Some? && Under(q, m.to.value) then Some(m.from + q[|m.to.value|..]) else None
  }

  /** Simultaneous remapping of the moved writes: what should be at `q` afterwards. */
  function Remapped(u: map<Path, Update>, moved: set<Path>, m: Shift, q: Path): Option<Update> {
    var src := SourceOf(m, q);
    var stays := q in u && q !in moved;
    if src.Some? && src.value in moved && src.value in u && m.included(q) then
      Some(if stays then Later(u[q], u[src.value]) else u[src.value])
    else if stays then Some(u[q])
    else None
  }

  function Lookup(u: map<Path, Update>, q: Path): Option<Update> {
    if q in u then Some(u[q]) else None
  }

  function PathSet(order: seq<Path>): set<Path> {
    set i | 0 <= i < |order| :: order[i]
  }

  predicate Distinct(order: seq<Path>) {
    forall i, j :: 0 <= i < j < |order| ==> order[i] != order[j]
  }

  /** No moved write is sent onto another moved write. */
  ghost predicate NoChain(u: map<Path, Update>, order: seq<Path>, m: Shift)
    requires forall i :: 0 <= i < |order| ==> Under(order[i], m.from)
  {
    forall i, j :: 0 <= i < |order| && 0 <= j < |order| && i != j ==> NewPath(m, order[i]) != Some(order[j])
  }

  lemma SourceInverts(m: Shift, p: Path, q: Path)
    requires Under(p, m.from) && m.to.Some?
    ensures SourceOf(m, q) == Some(p) <==> q == m.to.value + p[|m.from|..]
  {
    if q == m.to.value + p[|m.from|..] {
      assert q[|m.to.value|..] == p[|m.from|..];
      assert m.from + p[|m.from|..] == p;
    }
    if SourceOf(m, q) == Some(p) {
      assert p[|m.from|..] == q[|m.to.value|..];
    }
  }

  /** Without chains every order of the loop gives the simultaneous remapping. */
  lemma {:induction false} ShiftIsSimultaneous(u: map<Path, Update>, order: seq<Path>, m: Shift, q: Path)
    requires forall i :: 0 <= i < |order| ==> Under(order[i], m.from) && order[i] in u
    requires Distinct(order) && NoChain(u, order, m)
    ensures Lookup(ShiftAll(u, order, m), q) == Remapped(u, PathSet(order), m, q)
  {
    if order != [] {
      var n := |order| - 1;
      var init, p := order[..n], order[n];
      assert forall i :: 0 <= i < n ==> init[i] == order[i];
      ShiftIsSimultaneous(u, init, m, q);
      ShiftIsSimultaneous(u, init, m, p);
      assert order == init + [p];
      PathSetAppend(init, p);
      StillThere(u, init, m, p);
      if m.to.Some? {
        SourceInverts(m, p, q);
        if q != p && NewPath(m, p) == Some(q) { TargetNotMoved(u, order, m, q); }
        if q == p && p != m.to.value + p[|m.from|..] { NothingLandsOn(u, order, m); }
      }
      hide ShiftOne, Remapped, NoChain, PathSet, SourceOf, Distinct;
      ShiftOneMore(u, ShiftAll(u, init, m), PathSet(init), m, p, q);
    }
  }

  /** One more moved write, with nothing of the loop left in the statement. */
  lemma ShiftOneMore(u: map<Path, Update>, now: map<Path, Update>, moved: set<Path>, m: Shift, p: Path, q: Path)
    requires Under(p, m.from) && p in u && Lookup(now, p) == Some(u[p])
    requires Lookup(now, q) == Remapped(u, moved, m, q)
    requires m.to.Some? ==> (SourceOf(m, q) == Some(p) <==> q == m.to.value + p[|m.from|..])
    requires m.to.Some? && q != p && NewPath(m, p) == Some(q) ==> q !in moved + {p}
    requires m.to.Some? && q == p && p != m.to.value + p[|m.from|..] ==>
               (SourceOf(m, p).Some? && SourceOf(m, p).value in moved + {p} ==> !m.included(p))
    ensures Lookup(ShiftOne(now, p, m), q) == Remapped(u, moved + {p}, m, q)
  {
  }

  lemma PathSetAppend(init: seq<Path>, p: Path)
    ensures PathSet(init + [p]) == PathSet(init) + {p}
  {
    assert (init + [p])[|init|] == p;
    forall x | x in PathSet(init) ensures x in PathSet(init + [p]) {
      var i :| 0 <= i < |init| && init[i] == x;
      assert (init + [p])[i] == x;
    }
  }

  lemma NothingLandsOn(u: map<Path, Update>, order: seq<Path>, m: Shift)
    requires forall i :: 0 <= i < |order| ==> Under(order[i], m.from)
    requires order != [] && m.to.Some? && NoChain(u, order, m)
    requires var p := order[|order| - 1]; p != m.to.value + p[|m.from|..]
    ensures var p := order[|order| - 1];
            var src := SourceOf(m, p);
            src.Some? && src.value in PathSet(order) ==> !m.included(p)
  {
    var p := order[|order| - 1];
    var src := SourceOf(m, p);
    if src.Some? && src.value in PathSet(order) {
      var i :| 0 <= i < |order| && order[i] == src.value;
      SourceInverts(m, order[i], p);
    }
  }

  lemma TargetNotMoved(u: map<Path, Update>, order: seq<Path>, m: Shift, q: Path)
    requires forall i :: 0 <= i < |order| ==> Under(order[i], m.from)
    requires order != [] && NoChain(u, order, m) && NewPath(m, order[|order| - 1]) == Some(q) && q != order[|order| - 1]
    ensures q !in PathSet(order)
  {
  }

  /** A moved write not yet reached by the loop is untouched. */
  lemma StillThere(u: map<Path, Update>, init: seq<Path>, m: Shift, p: Path)
    requires forall i :: 0 <= i < |init| ==> Under(init[i], m.from) && init[i] in u
    requires Under(p, m.from) && p in u && p !in init
    requires forall i :: 0 <= i < |init| ==> NewPath(m, init[i]) != Some(p)
    requires Lookup(ShiftAll(u, init, m), p) == Remapped(u, PathSet(init), m, p)
    ensures Lookup(ShiftAll(u, init, m), p) == Some(u[p])
  {
    if m.to.Some? && SourceOf(m, p).Some? && SourceOf(m, p).value in PathSet(init) {
      var i :| 0 <= i < |init| && init[i] == SourceOf(m, p).value;
      SourceInverts(m, init[i], p);
    }
  }

  /** A guard on the rename alone: unrelated trees, or a move onto itself, cannot chain. */
  lemma UnrelatedTreesDoNotChain(u: map<Path, Update>, order: seq<Path>, m: Shift)
    requires forall i :: 0 <= i < |order| ==> Under(order[i], m.from)
    requires Distinct(order)
    requires m.to.Some? ==> m.to.value == m.from || !(m.from <= m.to.value || m.to.value <= m.from)
    ensures NoChain(u, order, m)
  {
  }

  /** With a chain, listing the write before the one it lands on sends it on once more: nothing is
      left at its new path. So exactly chain-free renames are safe in every listing order. */
  lemma ChainBreaks(u: map<Path, Update>, k: Path, t: Path, rest: seq<Path>, m: Shift)
    requires Under(k, m.from) && k in u && Under(t, m.from) && t in u && NewPath(m, k) == Some(t)
    requires forall i :: 0 <= i < |rest| ==> Under(rest[i], m.from) && rest[i] in u
    requires Distinct([k, t] + rest)
    ensures var order := [k, t] + rest;
            Lookup(ShiftAll(u, order, m), t) == None && Remapped(u, PathSet(order), m, t).Some?
  {
    var order := [k, t] + rest;
    SourceInverts(m, k, t);
    SourceInverts(m, t, t);
    assert order[0] == k && order[1] == t;
    assert k in PathSet(order);
    assert [k, t][..1] == [k] && [k][..0] == [];
    assert ShiftAll(u, [k], m) == ShiftOne(u, k, m);
    var two := ShiftAll(u, [k, t], m);
    assert two == ShiftOne(ShiftOne(u, k, m), t, m);
    assert t !in two;
    forall i | 0 <= i < |rest| ensures NewPath(m, rest[i]) != Some(t) {
      assert order[i + 2] == rest[i];
      SourceInverts(m, rest[i], t);
    }
    StaysAbsent(u, [k, t], rest, m, t);
  }

  lemma {:induction false} StaysAbsent(u: map<Path, Update>, first: seq<Path>, rest: seq<Path>, m: Shift, t: Path)
    requires forall i :: 0 <= i < |first| ==> Under(first[i], m.from)
    requires forall i :: 0 <= i < |rest| ==> Under(rest[i], m.from) && NewPath(m, rest[i]) != Some(t)
    requires t !in ShiftAll(u, first, m)
    ensures t !in ShiftAll(u, first + rest, m)
  {
    if rest == [] {
      assert first + rest == first;
    } else {
      StaysAbsent(u, first, rest[..|rest| - 1], m, t);
      assert (first + rest)[..|first + rest| - 1] == first + rest[..|rest| - 1];
    }
  }

  // ---------------------------------------------------------------- exactly when the order is irrelevant

  /** The moved writes, each once, in some order. */
  ghost predicate Listing(u: map<Path, Update>, m: Shift, order: seq<Path>) {
    && Distinct(order)
    && (forall i :: 0 <= i < |order| ==> Under(order[i], m.from) && order[i] in u)
    && (forall p :: p in u && Under(p, m.from) ==> p in order)
  }

  ghost predicate RemapsTogether(u: map<Path, Update>, m: Shift, order: seq<Path>)
    requires Listing(u, m, order)
  {
    forall q :: Lookup(ShiftAll(u, order, m), q) == Remapped(u, PathSet(order), m, q)
  }

  /** Some deferred write is sent onto another one that is itself under the moved path. */
  ghost predicate Chains(u: map<Path, Update>, m: Shift) {
    exists k, t :: k in u && Under(k, m.from) && t in u && Under(t, m.from) && k != t && NewPath(m, k) == Some(t)
  }

  /** The remapping is simultaneous in whatever order the hash map lists the writes, if and only if
      no write is sent onto another moved one. */
  lemma RemapIsOrderFreeIff(u: map<Path, Update>, m: Shift)
    ensures (forall order :: Listing(u, m, order) ==> RemapsTogether(u, m, order)) <==> !Chains(u, m)
  {
    if Chains(u, m) {
      var k, t :| k in u && Under(k, m.from) && t in u && Under(t, m.from) && k != t && NewPath(m, k) == Some(t);
      var others := set p | p in u && Under(p, m.from) && p != k && p != t;
      var rest := Listed(others);
      var order := [k, t] + rest;
      ChainListing(u, m, k, t, rest);
      ChainBreaks(u, k, t, rest, m);
      assert Listing(u, m, order) && !RemapsTogether(u, m, order);
    } else {
      forall order | Listing(u, m, order) ensures RemapsTogether(u, m, order) {
        forall q { ShiftIsSimultaneous(u, order, m, q); }
      }
    }
  }

  lemma ChainListing(u: map<Path, Update>, m: Shift, k: Path, t: Path, rest: seq<Path>)
    requires k in u && Under(k, m.from) && t in u && Under(t, m.from) && k != t && Distinct(rest)
    requires forall p :: p in rest <==> p in u && Under(p, m.from) && p != k && p != t
    ensures Listing(u, m, [k, t] + rest)
  {
  }

  lemma {:induction false} Listed(paths: set<Path>) returns (order: seq<Path>)
    ensures Distinct(order) && forall p :: p in order <==> p in paths
  {
    order := [];
    if paths != {} {
      var p :| p in paths;
      var rest := Listed(paths - {p});
      order := [p] + rest;
    }
  }

  /** For instance, moving `a` to `a/a` with writes deferred for `a/x` and `a/a/x`. */
  lemma ChainExample()
    ensures var u := map[["a", "x"] := Update(0, 0), ["a", "a", "x"] := Update(0, 0)];
            var m := Shift(["a"], Some(["a", "a"]), _ => true);
            Chains(u, m) && exists order :: Listing(u, m, order) && !RemapsTogether(u, m, order)
  {
    var u := map[["a", "x"] := Update(0, 0), ["a", "a", "x"] := Update(0, 0)];
    var m := Shift(["a"], Some(["a", "a"]), _ => true);
    var k, t := ["a", "x"], ["a", "a", "x"];
    assert NewPath(m, k) == Some(t) by { assert ["a", "a"] + k[1..] == t; }
    assert k in u && t in u && Under(k, m.from) && Under(t, m.from) && k != t;
    RemapIsOrderFreeIff(u, m);
  }
}
