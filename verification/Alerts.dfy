// The alert table and the tick that fires, resolves and announces.
module Alerts {
  import opened Wrappers
  import opened AlertRules
  import opened AlertOutcomes

  datatype Alert = Alert(key: Key, firedAt: int, resolvedAt: Option<int>, notified: bool, ackedBy: Option<string>)

  type Rows = map<nat, Alert>

  predicate OpenRow(rows: Rows, id: nat) { id in rows && rows[id].resolvedAt.None? }

  ghost predicate IsOpen(rows: Rows, k: Key) { exists id :: OpenRow(rows, id) && rows[id].key == k }

  ghost predicate AtMostOne(rows: Rows) {
    forall a, b :: OpenRow(rows, a) && OpenRow(rows, b) && rows[a].key == rows[b].key ==> a == b
  }

  // What a row may become: resolved, announced or acknowledged, once each and for good.
  ghost predicate Later(a: Alert, b: Alert) {
    && b.key == a.key && b.firedAt == a.firedAt
    && (a.resolvedAt.Some? ==> b.resolvedAt == a.resolvedAt) && (a.notified ==> b.notified)
    && (a.ackedBy.Some? ==> b.ackedBy == a.ackedBy)
  }

  ghost predicate AllLater(before: Rows, after: Rows) { forall id :: id in before ==> id in after && Later(before[id], after[id]) }

  // Rows resolved, and new ones not announced yet.
  ghost predicate Moved(before: Rows, after: Rows) {
    && (forall id :: id in before ==>
          && id in after && after[id] == before[id].(resolvedAt := after[id].resolvedAt)
          && (before[id].resolvedAt.Some? ==> after[id].resolvedAt == before[id].resolvedAt))
    && (forall id :: id in after && id !in before ==> !after[id].notified && after[id].ackedBy.None?)
  }

  // The keys this holds for are open in both tables or in neither.
  ghost predicate Same(before: Rows, after: Rows, k: Key) { IsOpen(after, k) <==> IsOpen(before, k) }

  // The tick has decided this key.
  ghost predicate Ticked(w: World, before: Rows, after: Rows, k: Key) { IsOpen(after, k) <==> OpenAfter(w, k, IsOpen(before, k)) }

  // ---- alternation -----------------------------------------------------------------------------

  // An alert fired, or one was resolved.
  datatype Change = Change(key: Key, fired: bool)

  ghost function Balance(log: seq<Change>, k: Key): int {
    if log == [] then 0
    else
      var c := log[|log| - 1];
      Balance(log[..|log| - 1], k) + if c.key != k then 0 else if c.fired then 1 else -1
  }

  // Fire, resolve, fire, and so on, beginning with fire.
  ghost predicate Alternates(log: seq<Change>, k: Key) {
    forall n :: 0 <= n <= |log| ==> 0 <= Balance(log[..n], k) <= 1
  }

  ghost predicate Fits(rows: Rows, log: seq<Change>, k: Key) {
    Alternates(log, k) && (Balance(log, k) == 1 <==> IsOpen(rows, k))
  }

  lemma AnotherChange(log: seq<Change>, c: Change, k: Key)
    requires Alternates(log, k)
    requires c.key == k ==> Balance(log, k) == if c.fired then 0 else 1
    ensures Alternates(log + [c], k)
    ensures Balance(log + [c], k) == if c.key != k then Balance(log, k) else if c.fired then 1 else 0
  {
    var now := log + [c];
    assert now[..|log|] == log && log[..|log|] == log;
    forall n | 0 <= n <= |now|
      ensures 0 <= Balance(now[..n], k) <= 1
    {
      if n <= |log| { assert now[..n] == log[..n]; } else { assert now[..n] == now; }
    }
  }

  // ---- the table ---------------------------------------------------------------------------------

  ghost predicate Inv(rows: Rows, nextId: nat, log: seq<Change>) {
    && (forall id :: id in rows ==> id < nextId)
    && AtMostOne(rows)
    && forall k :: Fits(rows, log, k)
  }

  function Fired(rows: Rows, id: nat, k: Key, now: int): Rows { rows[id := Alert(k, now, None, false, None)] }

  function Resolved(rows: Rows, id: nat, now: int): Rows
    requires id in rows
  {
    rows[id := rows[id].(resolvedAt := Some(now))]
  }

  lemma FiringOpens(rows: Rows, nextId: nat, k: Key, now: int)
    requires (forall id :: id in rows ==> id < nextId) && AtMostOne(rows) && !IsOpen(rows, k)
    ensures var after := Fired(rows, nextId, k, now);
            && (forall id :: id in after ==> id < nextId + 1) && AtMostOne(after) && Moved(rows, after)
            && forall o :: IsOpen(after, o) <==> o == k || IsOpen(rows, o)
  {
    var after := Fired(rows, nextId, k, now);
    assert OpenRow(after, nextId);
    assert forall id :: id != nextId ==> (OpenRow(after, id) <==> OpenRow(rows, id));
  }

  lemma ResolvingCloses(rows: Rows, id: nat, now: int)
    requires AtMostOne(rows) && OpenRow(rows, id)
    ensures var after := Resolved(rows, id, now);
            && AtMostOne(after) && Moved(rows, after)
            && forall o :: IsOpen(after, o) <==> o != rows[id].key && IsOpen(rows, o)
  {
    var after := Resolved(rows, id, now);
    assert forall i :: i != id ==> (OpenRow(after, i) <==> OpenRow(rows, i));
  }

  lemma FiringKeeps(rows: Rows, nextId: nat, log: seq<Change>, k: Key, now: int)
    requires Inv(rows, nextId, log) && !IsOpen(rows, k)
    ensures Inv(Fired(rows, nextId, k, now), nextId + 1, log + [Change(k, true)])
  {
    FiringOpens(rows, nextId, k, now);
    hide IsOpen, AtMostOne, Alternates, Balance, Fired;
    forall o
      ensures Fits(Fired(rows, nextId, k, now), log + [Change(k, true)], o)
    {
      assert Fits(rows, log, o);
      BalanceIsBit(log, o);
      AnotherChange(log, Change(k, true), o);
    }
  }

  lemma ResolvingKeeps(rows: Rows, nextId: nat, log: seq<Change>, id: nat, now: int)
    requires Inv(rows, nextId, log) && OpenRow(rows, id)
    ensures Inv(Resolved(rows, id, now), nextId, log + [Change(rows[id].key, false)])
  {
    ResolvingCloses(rows, id, now);
    assert IsOpen(rows, rows[id].key);
    hide IsOpen, AtMostOne, Alternates, Balance;
    forall o
      ensures Fits(Resolved(rows, id, now), log + [Change(rows[id].key, false)], o)
    {
      assert Fits(rows, log, o);
      BalanceIsBit(log, o);
      AnotherChange(log, Change(rows[id].key, false), o);
    }
  }

  lemma BalanceIsBit(log: seq<Change>, k: Key)
    requires Alternates(log, k)
    ensures Balance(log, k) in {0, 1}
  {
    assert log[..|log|] == log;
  }

  // The history without one device.
  ghost function Elsewhere(log: seq<Change>, device: nat): seq<Change> {
    if log == [] then []
    else
      var c := log[|log| - 1];
      Elsewhere(log[..|log| - 1], device) + if c.key.device == device then [] else [c]
  }

  function RowsElsewhere(rows: Rows, device: nat): Rows { map id | id in rows && rows[id].key.device != device :: rows[id] }

  lemma {:induction false} ElsewhereAlternates(log: seq<Change>, device: nat, k: Key)
    requires Alternates(log, k)
    ensures Alternates(Elsewhere(log, device), k)
    ensures Balance(Elsewhere(log, device), k) == if k.device == device then 0 else Balance(log, k)
  {
    if log != [] {
      var front, c := log[..|log| - 1], log[|log| - 1];
      forall n | 0 <= n <= |front|
        ensures 0 <= Balance(front[..n], k) <= 1
      {
        assert front[..n] == log[..n];
      }
      BalanceIsBit(log, k);
      BalanceIsBit(front, k);
      ElsewhereAlternates(front, device, k);
      if c.key.device != device {
        AnotherChange(Elsewhere(front, device), c, k);
      } else {
        assert Elsewhere(front, device) + [] == Elsewhere(front, device);
      }
    }
  }

  // The other devices' alerts are as they were, and the deleted device has none.
  lemma DeletionKeeps(rows: Rows, nextId: nat, log: seq<Change>, device: nat)
    requires Inv(rows, nextId, log)
    ensures Inv(RowsElsewhere(rows, device), nextId, Elsewhere(log, device))
    ensures forall k :: IsOpen(RowsElsewhere(rows, device), k) <==> k.device != device && IsOpen(rows, k)
  {
    var after := RowsElsewhere(rows, device);
    assert forall id :: OpenRow(after, id) <==> OpenRow(rows, id) && rows[id].key.device != device;
    forall k
      ensures Fits(after, Elsewhere(log, device), k)
      ensures IsOpen(after, k) <==> k.device != device && IsOpen(rows, k)
    {
      assert Fits(rows, log, k);
      assert IsOpen(after, k) <==> k.device != device && IsOpen(rows, k);
      ElsewhereAlternates(log, device, k);
    }
    hide Alternates, Balance;
  }

  // The open rows by key, as read at the start of a tick.
  ghost predicate Indexes(open: map<Key, nat>, rows: Rows, k: Key) {
    if k in open then OpenRow(rows, open[k]) && rows[open[k]].key == k else !IsOpen(rows, k)
  }

  class AlertTable {
    var rows: Rows
    var nextId: nat
    ghost var log: seq<Change>

    ghost predicate Valid()
      reads this
    {
      Inv(rows, nextId, log)
    }

    constructor ()
      ensures Valid() && rows == map[] && log == []
    {
      rows, nextId, log := map[], 1, [];
    }

    method Fire(k: Key, now: int)
      requires Valid() && !IsOpen(rows, k)
      modifies this
      ensures Valid() && rows == Fired(old(rows), old(nextId), k, now) && log == old(log) + [Change(k, true)]
      ensures nextId == old(nextId) + 1
      ensures rows.Keys == old(rows).Keys + {old(nextId)} && rows[old(nextId)] == Alert(k, now, None, false, None)
      ensures forall i :: i in old(rows) ==> rows[i] == old(rows)[i]
    {
      InvParts(rows, nextId, log);
      FiringKeeps(rows, nextId, log, k, now);
      rows, log := rows[nextId := Alert(k, now, None, false, None)], log + [Change(k, true)];
      nextId := nextId + 1;
    }

    method Resolve(id: nat, now: int)
      requires Valid() && OpenRow(rows, id)
      modifies this`rows, this`log
      ensures Valid() && rows == Resolved(old(rows), id, now) && log == old(log) + [Change(rows[id].key, false)]
      ensures rows.Keys == old(rows).Keys && rows[id] == old(rows)[id].(resolvedAt := Some(now))
      ensures forall i :: i in rows && i != id ==> rows[i] == old(rows)[i]
    {
      ResolvingKeeps(rows, nextId, log, id, now);
      rows, log := rows[id := rows[id].(resolvedAt := Some(now))], log + [Change(rows[id].key, false)];
    }

    // The first to acknowledge an open alert gets the byline.
    method Ack(id: nat, who: string) returns (row: Option<Alert>)
      requires Valid()
      modifies this`rows
      ensures Valid() && AllLater(old(rows), rows) && rows.Keys == old(rows).Keys
      ensures row.Some? <==> OpenRow(old(rows), id)
      ensures row.Some? ==> row.value == rows[id]
      ensures row.Some? ==> rows[id] == old(rows)[id].(ackedBy := if old(rows)[id].ackedBy.Some? then old(rows)[id].ackedBy else Some(who))
    {
      if OpenRow(rows, id) && rows[id].ackedBy.None? {
        SameOpenKeeps(rows, rows[id := rows[id].(ackedBy := Some(who))], nextId, log);
        rows := rows[id := rows[id].(ackedBy := Some(who))];
      }
      row := if OpenRow(rows, id) then Some(rows[id]) else None;
    }

    // A deleted device takes its alerts and their history with it.
    method DeleteForDevice(device: nat)
      requires Valid()
      modifies this`rows, this`log
      ensures Valid()
      ensures rows == RowsElsewhere(old(rows), device) && log == Elsewhere(old(log), device)
      ensures forall k :: IsOpen(rows, k) <==> k.device != device && IsOpen(old(rows), k)
    {
      DeletionKeeps(rows, nextId, log, device);
      log := Elsewhere(log, device);
      rows := map id | id in rows && rows[id].key.device != device :: rows[id];
      hide Inv, IsOpen, Elsewhere;
    }

    // One rule for one device.
    method Check(w: World, d: Device, t: Type, open: map<Key, nat>, ghost before: Rows, ghost done: set<Type>)
      requires Valid() && Find(w.fleet, d.id) == Some(d) && d.id !in w.maintenance && Applies(d, t)
      requires Checked(w, d.id, open, before, rows, done) && t !in done
      modifies this
      ensures Valid() && Checked(w, d.id, open, before, rows, done + {t})
      ensures old(log) <= log
    {
      ghost var was := rows;
      var k := Key(d.id, t);
      assert IsOpen(rows, k) <==> k in open;
      assert k in open ==> OpenRow(rows, open[k]) && rows[open[k]].key == k;
      var rule := EffectiveRule(w.rules, d, t);
      hide Inv, IsOpen, AtMostOne, EffectiveRule, Applies, Judge, Checked, Moved;
      InvParts(rows, nextId, log);
      MovedNot(rows);
      if rule.Some? && rule.value.enabled {
        var v := Judge(w.settings, rule.value, d, t, w.now);
        if k !in open && v.raises {
          FiringOpens(rows, nextId, k, w.now);
          Fire(k, w.now);
        } else if k in open && v.clears {
          ResolvingCloses(rows, open[k], w.now);
          Resolve(open[k], w.now);
        }
      }
      CheckedMore(w, d.id, open, before, was, rows, done, t);
    }

    // Open alerts of devices that are gone or no longer watched are closed quietly.
    method CloseUnwatched(w: World) returns (open: map<Key, nat>)
      requires Valid()
      modifies this`rows, this`log
      ensures Valid() && Moved(old(rows), rows)
      ensures forall k :: IsOpen(rows, k) <==> IsOpen(old(rows), k) && Watched(w, k)
      ensures forall k :: Indexes(open, rows, k)
      ensures old(log) <= log
    {
      open := map id | id in rows && OpenRow(rows, id) :: rows[id].key := id;
      ghost var before := rows;
      OpenIsIndexed(rows, open);
      MovedNot(rows);
      var left := open.Keys;
      assert Closing(w, before, rows, open, left);
      hide Inv, Watched, AtMostOne, Moved, IsOpen, Closing;
      while left != {}
        invariant Valid() && left <= open.Keys && Closing(w, before, rows, open, left)
        invariant old(log) <= log
        decreases |left|
      {
        var k :| k in left;
        InvParts(rows, nextId, log);
        ClosingOne(w, before, rows, open, left, k);
        left := left - {k};
        if !Watched(w, k) {
          Resolve(open[k], w.now);
          open := open - {k};
        }
      }
      ClosingDone(w, before, rows, open);
    }

    // Every rule of one device.
    method CheckDevice(w: World, d: Device, open: map<Key, nat>)
      requires Valid() && Find(w.fleet, d.id) == Some(d) && Checked(w, d.id, open, rows, rows, {})
      modifies this
      ensures Valid() && Checked(w, d.id, open, old(rows), rows, ALL)
      ensures old(log) <= log
    {
      ghost var before := rows;
      hide Inv, Checked, Find;
      ghost var done: set<Type> := {};
      if d.id !in w.maintenance {
        if d.hasAgent {
          Check(w, d, Offline, open, before, done);
          done := done + {Offline};
          Check(w, d, Disk, open, before, done);
          done := done + {Disk};
          Check(w, d, PatchAge, open, before, done);
          done := done + {PatchAge};
        } else if d.mdm.Some? {
          Check(w, d, MdmSilent, open, before, done);
          done := done + {MdmSilent};
          if !d.mdm.value.removed {
            Check(w, d, MdmPasscode, open, before, done);
            done := done + {MdmPasscode};
            Check(w, d, MdmIdentity, open, before, done);
            done := done + {MdmIdentity};
          }
        }
      }
      NothingElseApplies(w, d, open, before, rows, done);
    }

    // Send what was not sent yet; what does not get through is tried again next time.
    method Announce(accepts: nat -> bool)
      requires Valid()
      modifies this`rows
      ensures Valid() && rows.Keys == old(rows).Keys
      ensures forall id :: id in rows ==>
                rows[id] == old(rows)[id].(notified := old(rows)[id].notified || (OpenRow(old(rows), id) && accepts(id)))
      ensures forall k :: Same(old(rows), rows, k)
    {
      ghost var before := rows;
      var unsent := set id | id in rows && !rows[id].notified && rows[id].resolvedAt.None?;
      var left := unsent;
      hide Inv, IsOpen;
      while left != {}
        invariant left <= unsent && rows.Keys == before.Keys
        invariant forall id :: id in rows ==>
                    rows[id] == before[id].(notified := before[id].notified || (id in unsent - left && accepts(id)))
        decreases |left|
      {
        var id :| id in left;
        left := left - {id};
        if accepts(id) {
          rows := rows[id := rows[id].(notified := true)];
        }
      }
      SameOpenKeeps(before, rows, nextId, log);
    }

    // One tick: `accepts` says for which alerts the push gets through.
    method Evaluate(w: World, accepts: nat -> bool)
      requires Valid() && Sound(w)
      modifies this
      ensures Valid() && AllLater(old(rows), rows) && old(log) <= log
      ensures forall k :: Ticked(w, old(rows), rows, k)
      ensures forall d, t :: d in w.fleet ==> Comes(w, d, t, IsOpen(old(rows), Key(d.id, t)), IsOpen(rows, Key(d.id, t)))
      ensures forall k :: IsOpen(rows, k) ==> exists d :: d in w.fleet && d.id == k.device
      ensures forall id :: OpenRow(rows, id) && accepts(id) ==> rows[id].notified
      ensures forall id :: id in rows && rows[id].notified ==> accepts(id) || (id in old(rows) && old(rows)[id].notified)
    {
      ghost var before := rows;
      var open := CloseUnwatched(w);
      ghost var closed := rows;
      FleetStarts(w, open, before, rows);
      hide Inv, IsOpen, Moved, FleetChecked, Ticked, AllLater;
      for i := 0 to |w.fleet|
        invariant Valid() && FleetChecked(w, open, closed, rows, i)
        invariant old(log) <= log
      {
        ghost var was := rows;
        FleetNext(w, open, closed, rows, i);
        CheckDevice(w, w.fleet[i], open);
        FleetStep(w, open, closed, was, rows, i);
      }
      FleetDone(w, open, before, closed, rows);
      ghost var ticked := rows;
      Announce(accepts);
      AnnouncedLater(w, before, ticked, rows, accepts);
      TickIs(w, before, rows);
    }
  }

  // ---- the progress of a tick -----------------------------------------------------------------------

  const ALL: set<Type> := {Offline, Disk, PatchAge, MdmSilent, MdmPasscode, MdmIdentity}

  // The open alerts not in `left` have been looked at.
  ghost predicate Closing(w: World, before: Rows, rows: Rows, open: map<Key, nat>, left: set<Key>) {
    && Moved(before, rows)
    && (forall k :: IsOpen(rows, k) <==> IsOpen(before, k) && (k in left || Watched(w, k)))
    && (forall k :: Indexes(open, rows, k))
  }

  lemma ClosingOne(w: World, before: Rows, rows: Rows, open: map<Key, nat>, left: set<Key>, k: Key)
    requires AtMostOne(rows) && Closing(w, before, rows, open, left) && k in open && k in left
    ensures OpenRow(rows, open[k])
    ensures Watched(w, k) ==> Closing(w, before, rows, open, left - {k})
    ensures !Watched(w, k) ==> Closing(w, before, Resolved(rows, open[k], w.now), open - {k}, left - {k})
  {
    assert Indexes(open, rows, k);
    ResolvingCloses(rows, open[k], w.now);
    IndexWithout(open, rows, k, w.now);
    MovedTwice(before, rows, Resolved(rows, open[k], w.now));
    hide IsOpen, Watched, Moved, AtMostOne, Resolved;
  }

  lemma ClosingDone(w: World, before: Rows, rows: Rows, open: map<Key, nat>)
    requires Closing(w, before, rows, open, {})
    ensures Moved(before, rows) && (forall k :: Indexes(open, rows, k))
    ensures forall k :: IsOpen(rows, k) <==> IsOpen(before, k) && Watched(w, k)
  {
  }

  lemma AllTypes(t: Type)
    ensures t in ALL
  {
    match t
    case Offline =>
    case Disk =>
    case PatchAge =>
    case MdmSilent =>
    case MdmPasscode =>
    case MdmIdentity =>
  }

  // Nothing happened to this key since the open alerts were read.
  ghost predicate Stands(w: World, open: map<Key, nat>, before: Rows, rows: Rows, k: Key) {
    Same(before, rows, k) && Indexes(open, rows, k) && (k in open ==> Watched(w, k))
  }

  // These types have been decided for the device, the others and other devices stand.
  ghost predicate Checked(w: World, device: nat, open: map<Key, nat>, before: Rows, rows: Rows, done: set<Type>) {
    && Moved(before, rows)
    && (forall t :: t in done ==> Ticked(w, before, rows, Key(device, t)))
    && (forall t :: t !in done ==> Stands(w, open, before, rows, Key(device, t)))
    && (forall k: Key :: k.device != device ==> Same(before, rows, k))
    && (forall id :: id in before && before[id].key.device != device ==> rows[id] == before[id])
  }

  ghost predicate FleetChecked(w: World, open: map<Key, nat>, before: Rows, rows: Rows, n: nat)
    requires n <= |w.fleet|
  {
    && Moved(before, rows)
    && forall k: Key :: if k.device in Ids(w.fleet[..n]) then Ticked(w, before, rows, k) else Stands(w, open, before, rows, k)
  }

  ghost function Ids(fleet: seq<Device>): set<nat> { set d | d in fleet :: d.id }

  lemma MovedNot(rows: Rows)
    ensures Moved(rows, rows)
  {
  }

  lemma MovedTwice(a: Rows, b: Rows, c: Rows)
    requires Moved(a, b) && Moved(b, c)
    ensures Moved(a, c)
  {
  }

  lemma CheckedMore(w: World, device: nat, open: map<Key, nat>, before: Rows, was: Rows, rows: Rows, done: set<Type>, t: Type)
    requires Checked(w, device, open, before, was, done) && t !in done
    requires Moved(was, rows) && Ticked(w, was, rows, Key(device, t))
    requires forall k :: k != Key(device, t) ==> Same(was, rows, k)
    requires forall id :: id in was && was[id].key != Key(device, t) ==> rows[id] == was[id]
    ensures Checked(w, device, open, before, rows, done + {t})
  {
    MovedTwice(before, was, rows);
    hide IsOpen, OpenAfter, Watched;
    forall o | o !in done + {t}
      ensures Stands(w, open, before, rows, Key(device, o))
    {
      assert Stands(w, open, before, was, Key(device, o));
      assert Same(was, rows, Key(device, o));
    }
    forall o | o in done
      ensures Ticked(w, before, rows, Key(device, o))
    {
      assert Ticked(w, before, was, Key(device, o)) && Same(was, rows, Key(device, o));
    }
    forall k: Key | k.device != device
      ensures Same(before, rows, k)
    {
      assert Same(before, was, k) && Same(was, rows, k);
    }
    assert Stands(w, open, before, was, Key(device, t));
    assert Ticked(w, before, rows, Key(device, t));
  }

  // A type the tick does not look at stays as it is.
  lemma NothingElseApplies(w: World, d: Device, open: map<Key, nat>, before: Rows, rows: Rows, done: set<Type>)
    requires Checked(w, d.id, open, before, rows, done) && Find(w.fleet, d.id) == Some(d)
    requires forall t :: t !in done ==> d.id in w.maintenance || !Applies(d, t)
    ensures Checked(w, d.id, open, before, rows, ALL)
  {
    hide Applies, Judge, EffectiveRule, Moved;
    forall t
      ensures Ticked(w, before, rows, Key(d.id, t))
    {
      if t !in done { assert Stands(w, open, before, rows, Key(d.id, t)); }
    }
    forall t
      ensures t in ALL
    {
      AllTypes(t);
    }
  }

  lemma OpenIsIndexed(rows: Rows, open: map<Key, nat>)
    requires AtMostOne(rows)
    requires forall id :: OpenRow(rows, id) ==> rows[id].key in open
    requires forall k :: k in open ==> OpenRow(rows, open[k]) && rows[open[k]].key == k
    ensures forall k :: Indexes(open, rows, k)
    ensures forall k :: k in open <==> IsOpen(rows, k)
  {
    forall k | k in open
      ensures IsOpen(rows, k)
    {
      assert OpenRow(rows, open[k]);
    }
  }

  lemma IndexWithout(open: map<Key, nat>, rows: Rows, k: Key, now: int)
    requires AtMostOne(rows) && forall o :: Indexes(open, rows, o)
    requires k in open
    ensures OpenRow(rows, open[k]) && forall o :: Indexes(open - {k}, Resolved(rows, open[k], now), o)
  {
    assert Indexes(open, rows, k);
    ResolvingCloses(rows, open[k], now);
    hide IsOpen, AtMostOne;
    forall o
      ensures Indexes(open - {k}, Resolved(rows, open[k], now), o)
    {
      assert Indexes(open, rows, o);
    }
  }

  lemma FleetStarts(w: World, open: map<Key, nat>, before: Rows, closed: Rows)
    requires forall k :: Indexes(open, closed, k)
    requires forall k :: IsOpen(closed, k) <==> IsOpen(before, k) && Watched(w, k)
    ensures FleetChecked(w, open, closed, closed, 0)
  {
    hide Watched;
    forall k
      ensures Stands(w, open, closed, closed, k)
    {
      assert Indexes(open, closed, k);
    }
  }

  lemma {:induction false} FindsEach(fleet: seq<Device>, n: nat)
    requires n < |fleet| && forall i, j :: 0 <= i < j < |fleet| ==> fleet[i].id != fleet[j].id
    ensures Find(fleet, fleet[n].id) == Some(fleet[n])
    ensures fleet[n].id !in Ids(fleet[..n])
  {
    if n > 0 { FindsEach(fleet[1..], n - 1); }
  }

  lemma FleetNext(w: World, open: map<Key, nat>, closed: Rows, rows: Rows, n: nat)
    requires Sound(w) && n < |w.fleet| && FleetChecked(w, open, closed, rows, n)
    ensures Find(w.fleet, w.fleet[n].id) == Some(w.fleet[n])
    ensures Checked(w, w.fleet[n].id, open, rows, rows, {})
  {
    FindsEach(w.fleet, n);
    hide Watched, IsOpen, Find, Ids, Ticked;
    forall t
      ensures Stands(w, open, rows, rows, Key(w.fleet[n].id, t))
    {
      assert Stands(w, open, closed, rows, Key(w.fleet[n].id, t));
    }
  }

  lemma FleetStep(w: World, open: map<Key, nat>, closed: Rows, was: Rows, rows: Rows, n: nat)
    requires Sound(w) && n < |w.fleet| && FleetChecked(w, open, closed, was, n)
    requires Checked(w, w.fleet[n].id, open, was, rows, ALL)
    ensures FleetChecked(w, open, closed, rows, n + 1)
  {
    var id := w.fleet[n].id;
    FindsEach(w.fleet, n);
    MovedTwice(closed, was, rows);
    assert w.fleet[..n + 1] == w.fleet[..n] + [w.fleet[n]];
    assert Ids(w.fleet[..n + 1]) == Ids(w.fleet[..n]) + {id};
    hide Checked, Find, Moved, Stands, Ticked, Ids, Sound;
    forall k: Key
      ensures if k.device in Ids(w.fleet[..n + 1]) then Ticked(w, closed, rows, k) else Stands(w, open, closed, rows, k)
    {
      KeyStep(w, open, closed, was, rows, n, k);
    }
  }

  lemma KeyStep(w: World, open: map<Key, nat>, closed: Rows, was: Rows, rows: Rows, n: nat, k: Key)
    requires n < |w.fleet| && FleetChecked(w, open, closed, was, n) && w.fleet[n].id !in Ids(w.fleet[..n])
    requires Checked(w, w.fleet[n].id, open, was, rows, ALL)
    ensures k.device in Ids(w.fleet[..n]) || k.device == w.fleet[n].id ==> Ticked(w, closed, rows, k)
    ensures !(k.device in Ids(w.fleet[..n]) || k.device == w.fleet[n].id) ==> Stands(w, open, closed, rows, k)
  {
    hide Ids, IsOpen, OpenAfter, Watched;
    if k.device == w.fleet[n].id {
      assert Stands(w, open, closed, was, k);
      AllTypes(k.of);
      assert Ticked(w, was, rows, Key(w.fleet[n].id, k.of));
    } else {
      assert Same(was, rows, k);
      assert k.device in Ids(w.fleet[..n]) ==> Ticked(w, closed, was, k);
      assert k.device !in Ids(w.fleet[..n]) ==> Stands(w, open, closed, was, k);
    }
  }

  lemma FleetDone(w: World, open: map<Key, nat>, before: Rows, closed: Rows, rows: Rows)
    requires FleetChecked(w, open, closed, rows, |w.fleet|) && Moved(before, closed)
    requires forall k :: IsOpen(closed, k) <==> IsOpen(before, k) && Watched(w, k)
    ensures Moved(before, rows) && forall k :: Ticked(w, before, rows, k)
  {
    MovedTwice(before, closed, rows);
    assert w.fleet[..|w.fleet|] == w.fleet;
    hide Applies, Judge, EffectiveRule, Moved, IsOpen, Find;
    forall k
      ensures Ticked(w, before, rows, k)
    {
      if k.device in Ids(w.fleet) {
        assert Ticked(w, closed, rows, k);
      } else {
        assert Stands(w, open, closed, rows, k);
        UnknownIsUnwatched(w, k);
      }
    }
  }

  lemma UnknownIsUnwatched(w: World, k: Key)
    requires k.device !in Ids(w.fleet)
    ensures !Watched(w, k)
  {
    hide EffectiveRule;
  }

  lemma AnnouncedLater(w: World, before: Rows, ticked: Rows, rows: Rows, accepts: nat -> bool)
    requires Moved(before, ticked) && forall k :: Ticked(w, before, ticked, k)
    requires rows.Keys == ticked.Keys && forall k :: Same(ticked, rows, k)
    requires forall id :: id in rows ==> rows[id] == ticked[id].(notified := ticked[id].notified || (OpenRow(ticked, id) && accepts(id)))
    ensures AllLater(before, rows)
    ensures forall k :: Ticked(w, before, rows, k)
    ensures forall id :: OpenRow(rows, id) && accepts(id) ==> rows[id].notified
    ensures forall id :: id in rows && rows[id].notified ==> accepts(id) || (id in before && before[id].notified)
  {
    hide IsOpen, OpenAfter;
    forall k
      ensures Ticked(w, before, rows, k)
    {
      assert Ticked(w, before, ticked, k) && Same(ticked, rows, k);
    }
  }

  lemma TickIs(w: World, before: Rows, rows: Rows)
    requires Sound(w) && forall k :: Ticked(w, before, rows, k)
    ensures forall d, t :: d in w.fleet ==> Comes(w, d, t, IsOpen(before, Key(d.id, t)), IsOpen(rows, Key(d.id, t)))
    ensures forall k :: IsOpen(rows, k) ==> exists d :: d in w.fleet && d.id == k.device
  {
    hide IsOpen, OpenAfter, Comes, Sound;
    forall d, t | d in w.fleet
      ensures Comes(w, d, t, IsOpen(before, Key(d.id, t)), IsOpen(rows, Key(d.id, t)))
    {
      TickComes(w, d, t, IsOpen(before, Key(d.id, t)));
      assert Ticked(w, before, rows, Key(d.id, t));
    }
    forall k | IsOpen(rows, k)
      ensures exists d :: d in w.fleet && d.id == k.device
    {
      assert Ticked(w, before, rows, k);
      if forall d :: d in w.fleet ==> d.id != k.device { UnknownComes(w, k, IsOpen(before, k)); }
    }
  }

  lemma InvParts(rows: Rows, nextId: nat, log: seq<Change>)
    requires Inv(rows, nextId, log)
    ensures AtMostOne(rows) && forall id :: id in rows ==> id < nextId
  {
  }

  // Changes that touch neither keys nor what is open.
  lemma SameOpenKeeps(rows: Rows, after: Rows, nextId: nat, log: seq<Change>)
    requires Inv(rows, nextId, log) && rows.Keys == after.Keys
    requires forall id :: id in rows ==> rows[id].key == after[id].key && rows[id].resolvedAt == after[id].resolvedAt
    ensures Inv(after, nextId, log)
    ensures forall k :: IsOpen(after, k) <==> IsOpen(rows, k)
  {
    assert forall id :: OpenRow(after, id) <==> OpenRow(rows, id);
    assert forall k :: IsOpen(after, k) <==> IsOpen(rows, k);
    forall k
      ensures Fits(after, log, k)
    {
      assert Fits(rows, log, k);
    }
  }
}
