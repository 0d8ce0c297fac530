// The tables of queued actions and jobs, changed in place by the storage functions, the
// runner and the cleanup.
module ActionStore {
  import opened Text
  import opened Wrappers
  import opened JobsTable
  import opened Actions
  import opened ActionInvariant
  import opened ActionRuns
  import opened ActionOutcomes
  import opened ActionDecisions
  import J = Jobs

  // A due list: ids and the rows as read, oldest first.
  type Due = seq<(nat, Action)>

  ghost predicate IsDueList(due: Due, actions: map<nat, Action>, device: nat, now: int) {
    && (forall i, j :: 0 <= i < j < |due| ==> due[i].0 < due[j].0)
    && (forall i :: 0 <= i < |due| ==> due[i].0 in actions && due[i].1 == actions[due[i].0] && IsDue(due[i].1, device, now))
    && (forall id :: id in actions && IsDue(actions[id], device, now) ==> exists i :: 0 <= i < |due| && due[i].0 == id)
  }

  // The first k items of a list worked off one after the other.
  ghost function Worked(db: Db, due: Due, k: nat, find: nat -> Findings, reason: Str, now: int): Db
    requires k <= |due|
  {
    if k == 0 then db
    else RunItem(Worked(db, due, k - 1, find, reason, now), due[k - 1].0, due[k - 1].1, find(due[k - 1].0), reason, now)
  }

  predicate Goes(db: Db, a: Action, f: Findings, now: int) { Decide(db.jobs, a, f, now).Send? && f.sendWorks }

  // The jobs that went out for the first k items, in order.
  ghost function SentOut(db: Db, due: Due, k: nat, find: nat -> Findings, reason: Str, now: int): seq<nat>
    requires k <= |due|
  {
    if k == 0 then []
    else
      var before, item := Worked(db, due, k - 1, find, reason, now), due[k - 1];
      SentOut(db, due, k - 1, find, reason, now) + if Goes(before, item.1, find(item.0), now) then [before.nextJob] else []
  }

  ghost predicate BelongsToSent(j: nat, actions: map<nat, Action>) {
    exists id :: id in actions && actions[id].state == Dispatched && actions[id].job == Some(j)
  }

  lemma {:induction false} WorkedKeeps(db: Db, due: Due, k: nat, find: nat -> Findings, reason: Str, now: int, device: nat)
    requires Inv(db) && IsDueList(due, db.actions, device, now) && k <= |due|
    ensures Inv(Worked(db, due, k, find, reason, now))
    ensures Worked(db, due, k, find, reason, now).actions.Keys == db.actions.Keys
    ensures forall id :: id in db.actions ==>
              && Worked(db, due, k, find, reason, now).actions[id].device == db.actions[id].device
              && Worked(db, due, k, find, reason, now).actions[id].kind == db.actions[id].kind
  {
    hide Inv, RunItem;
    if k > 0 {
      WorkedKeeps(db, due, k - 1, find, reason, now, device);
      var before, item := Worked(db, due, k - 1, find, reason, now), due[k - 1];
      RunItemKeeps(before, item.0, item.1, find(item.0), reason, now);
      ItemTouches(before, item.0, item.1, find(item.0), reason, now);
    }
  }

  // One more item of the list: its action is still that of its row.
  lemma NextItem(db: Db, due: Due, k: nat, find: nat -> Findings, reason: Str, now: int, device: nat)
    requires Inv(db) && IsDueList(due, db.actions, device, now) && k < |due|
    ensures var before := Worked(db, due, k, find, reason, now);
            && due[k].0 in before.actions
            && before.actions[due[k].0].device == due[k].1.device && before.actions[due[k].0].kind == due[k].1.kind
            && Worked(db, due, k + 1, find, reason, now) == RunItem(before, due[k].0, due[k].1, find(due[k].0), reason, now)
            && SentOut(db, due, k + 1, find, reason, now)
               == SentOut(db, due, k, find, reason, now) + if Goes(before, due[k].1, find(due[k].0), now) then [before.nextJob] else []
  {
    hide Inv, RunItem, Goes;
    WorkedKeeps(db, due, k, find, reason, now, device);
  }

  ghost predicate Waits(due: Due, k: nat, before: map<nat, Action>, after: map<nat, Action>) {
    forall i :: k <= i < |due| ==> due[i].0 in before && due[i].0 in after && after[due[i].0] == before[due[i].0]
  }

  lemma {:induction false} LaterItemsWait(db: Db, due: Due, k: nat, find: nat -> Findings, reason: Str, now: int, device: nat)
    requires Inv(db) && IsDueList(due, db.actions, device, now) && k <= |due|
    ensures Waits(due, k, db.actions, Worked(db, due, k, find, reason, now).actions)
  {
    hide Inv, RunItem, Goes;
    if k > 0 {
      LaterItemsWait(db, due, k - 1, find, reason, now, device);
      var before, item := Worked(db, due, k - 1, find, reason, now), due[k - 1];
      ItemTouches(before, item.0, item.1, find(item.0), reason, now);
    }
  }

  lemma ItemSends(db: Db, id: nat, a: Action, f: Findings, reason: Str, now: int)
    requires id in db.actions && db.actions[id].state == Pending
    ensures Goes(db, a, f, now) ==> BelongsToSent(db.nextJob, RunItem(db, id, a, f, reason, now).actions)
    ensures forall j :: BelongsToSent(j, db.actions) ==> BelongsToSent(j, RunItem(db, id, a, f, reason, now).actions)
  {
    var after := RunItem(db, id, a, f, reason, now).actions;
    ItemTouches(db, id, a, f, reason, now);
    assert Goes(db, a, f, now) ==> after[id].state == Dispatched && after[id].job == Some(db.nextJob) by { hide Decide; }
    hide RunItem, Goes;
    forall j: nat | BelongsToSent(j, db.actions)
      ensures BelongsToSent(j, after)
    {
      var i :| i in db.actions && db.actions[i].state == Dispatched && db.actions[i].job == Some(j);
      assert after[i] == db.actions[i];
    }
  }

  // Every job a pass reports belongs to an action it marked as sent.
  lemma {:induction false} SentOutIsDispatched(db: Db, due: Due, k: nat, find: nat -> Findings, reason: Str, now: int, device: nat)
    requires Inv(db) && IsDueList(due, db.actions, device, now) && k <= |due|
    ensures forall j :: j in SentOut(db, due, k, find, reason, now) ==> BelongsToSent(j, Worked(db, due, k, find, reason, now).actions)
  {
    hide Inv, RunItem, Goes, BelongsToSent;
    if k > 0 {
      SentOutIsDispatched(db, due, k - 1, find, reason, now, device);
      LaterItemsWait(db, due, k - 1, find, reason, now, device);
      var before, item := Worked(db, due, k - 1, find, reason, now), due[k - 1];
      ItemSends(before, item.0, item.1, find(item.0), reason, now);
    }
  }

  // The steps of a pass: the list is read, then its first k items are worked off.
  ghost function Pass(device: nat, due: Due, k: nat, find: nat -> Findings, reason: Str): seq<Event>
    requires k <= |due|
  {
    if k == 0 then [ReadDue(device)] else Pass(device, due, k - 1, find, reason) + [Item(due[k - 1].0, find(due[k - 1].0), reason)]
  }

  lemma {:induction false} RunSnoc(s: System, es: seq<Event>, e: Event)
    ensures Run(s, es + [e]) == Step(Run(s, es), e)
    decreases |es|
  {
    hide Step;
    if es == [] {
      assert ([e])[1..] == [];
    } else {
      assert (es + [e])[1..] == es[1..] + [e];
      RunSnoc(Step(s, es[0]), es[1..], e);
    }
  }

  lemma ReadsTheList(s: System, device: nat, due: Due)
    requires (forall id :: id in s.due ==> s.due[id].device != device) && IsDueList(due, s.db.actions, device, s.now)
    ensures Run(s, [ReadDue(device)]) == Read(s, device)
    ensures forall i :: 0 <= i < |due| ==> due[i].0 in Read(s, device).due && Read(s, device).due[due[i].0] == due[i].1
  {
    assert ([ReadDue(device)])[1..] == [];
  }

  // Working off the list in one go is such a run of the interleaved system.
  lemma {:induction false} PassIsARun(s: System, device: nat, due: Due, k: nat, find: nat -> Findings, reason: Str)
    requires k <= |due| && (forall id :: id in s.due ==> s.due[id].device != device) && IsDueList(due, s.db.actions, device, s.now)
    ensures var after := Run(s, Pass(device, due, k, find, reason));
            && after.db == Worked(s.db, due, k, find, reason, s.now) && after.now == s.now
            && forall i :: k <= i < |due| ==> due[i].0 in after.due && after.due[due[i].0] == due[i].1
  {
    hide RunItem, Run, IsDue;
    if k == 0 {
      ReadsTheList(s, device, due);
    } else {
      PassIsARun(s, device, due, k - 1, find, reason);
      RunSnoc(s, Pass(device, due, k - 1, find, reason), Item(due[k - 1].0, find(due[k - 1].0), reason));
    }
  }

  lemma PendingIsUnique(actions: map<nat, Action>, key: Key, id: nat)
    requires OnePending(actions) && id in actions && actions[id].state == Pending && KeyOf(actions[id]) == key
    ensures PendingFor(actions, key) == Some(id)
  {
    hide KeyOf;
  }

  lemma SentIsUnique(actions: map<nat, Action>, job: nat, id: nat)
    requires OwnJobs(actions) && id in actions && actions[id].state == Dispatched && actions[id].job == Some(job)
    ensures ActionForJob(actions, job) == Some(id)
  {
  }

  // Waiting for its device, and not run out: an action may be worked off until the second
  // before it expires.
  predicate IsReady(a: Action, device: nat, now: int) {
    && a.device == device && a.state == Pending
    && match a.ask.expiresAt
       case None => true
       case Some(at) => now < at
  }

  // Waiting, and for the same: the same kind of thing on the same device, and of scripts the
  // same one.
  predicate IsAlike(a: Action, device: nat, kind: Kind, script: Option<nat>) {
    && a.state == Pending && a.device == device && a.kind == kind
    && (a.script == script || (a.script in {None, Some(0)} && script in {None, Some(0)}))
  }

  lemma AlikeIs(actions: map<nat, Action>, device: nat, kind: Kind, script: Option<nat>)
    ensures forall i :: i in actions ==>
              (IsAlike(actions[i], device, kind, script) <==> actions[i].state == Pending && KeyOf(actions[i]) == KeyFor(device, kind, script))
  {
  }

  lemma ReadyIs(actions: map<nat, Action>, device: nat, now: int)
    ensures forall id :: id in actions ==> (IsReady(actions[id], device, now) <==> IsDue(actions[id], device, now))
  {
  }

  class Store {
    var actions: map<nat, Action>
    var nextId: nat
    const jobs: JobStore

    ghost function View(): Db
      reads this, jobs
    {
      Db(actions, nextId, jobs.rows, jobs.nextId)
    }

    ghost predicate Valid()
      reads this, jobs
    {
      jobs.Valid() && Inv(View())
    }

    constructor ()
      ensures Valid() && View() == EMPTY.db && fresh(jobs)
    {
      var table := new JobStore();
      actions, nextId, jobs := map[], 1, table;
    }

    // ---- storage -----------------------------------------------------------------------------

    method Create(device: nat, kind: Kind, script: Option<nat>, ask: Ask, now: int) returns (id: nat, created: bool)
      requires Valid()
      modifies this
      ensures Valid() && View() == Actions.Create(old(View()), device, kind, script, ask, now)
      ensures created <==> id !in old(actions)
      ensures created <==> forall i :: i in old(actions) ==> !IsAlike(old(actions)[i], device, kind, script)
      ensures !created ==> IsAlike(old(actions)[id], device, kind, script)
      ensures id in actions && actions[id].state == Pending && KeyOf(actions[id]) == KeyFor(device, kind, script)
    {
      CreateKeeps(View(), device, kind, script, ask, now);
      AlikeIs(actions, device, kind, script);
      hide IsAlike;
      var key := KeyFor(device, kind, script);
      if i :| i in actions && actions[i].state == Pending && KeyOf(actions[i]) == key {
        PendingIsUnique(actions, key, i);
        var had := actions[i].ask;
        var expires := if had.expiresAt.None? || ask.expiresAt.None? then None
                       else if had.expiresAt.value >= ask.expiresAt.value then had.expiresAt else ask.expiresAt;
        id, created := i, false;
        actions := actions[i := actions[i].(ask := Ask(had.securityOnly && ask.securityOnly, had.reboot || ask.reboot, expires))];
      } else {
        id, created := nextId, true;
        actions := actions[id := Action(device, kind, script, ask, now, Pending, None)];
        nextId := nextId + 1;
      }
    }

    method Cancel(id: nat, device: nat) returns (withdrawn: bool)
      requires Valid()
      modifies this`actions
      ensures Valid() && View() == Actions.Cancel(old(View()), id, device)
      ensures withdrawn <==> id in old(actions) && old(actions)[id].device == device && old(actions)[id].state == Pending
    {
      CancelKeeps(View(), id, device);
      withdrawn := id in actions && actions[id].device == device && actions[id].state == Pending;
      if withdrawn {
        actions := actions[id := actions[id].(state := Cancelled)];
      }
    }

    method DueForDevice(device: nat, now: int) returns (due: Due)
      requires Valid()
      ensures IsDueList(due, actions, device, now)
      ensures forall id :: id in actions ==> ((exists i :: 0 <= i < |due| && due[i] == (id, actions[id])) <==> IsReady(actions[id], device, now))
      ensures forall i, j :: 0 <= i < j < |due| ==> due[i].0 < due[j].0
    {
      ReadyIs(actions, device, now);
      hide IsReady, IsDue;
      due := [];
      for i := 0 to nextId
        invariant forall k :: 0 <= k < |due| ==> due[k].0 < i
        invariant forall j, k :: 0 <= j < k < |due| ==> due[j].0 < due[k].0
        invariant forall k :: 0 <= k < |due| ==> due[k].0 in actions && due[k].1 == actions[due[k].0] && IsDue(due[k].1, device, now)
        invariant forall id :: id in actions && id < i && IsDue(actions[id], device, now) ==> exists k :: 0 <= k < |due| && due[k].0 == id
      {
        if i in actions && IsDue(actions[i], device, now) {
          ghost var before := due;
          due := due + [(i, actions[i])];
          assert due[|before|].0 == i;
          assert forall k :: 0 <= k < |before| ==> due[k] == before[k];
        }
      }
    }

    method Expire(now: int) returns (expired: set<nat>)
      requires Valid()
      modifies this`actions
      ensures Valid() && View() == Actions.Expire(old(View()), now)
      ensures expired == set id | id in old(actions) && actions[id] != old(actions)[id]
    {
      ExpireKeeps(View(), now);
      ghost var before := actions;
      expired := set id | id in actions && actions[id].state == Pending && actions[id].ask.expiresAt.Some? && actions[id].ask.expiresAt.value <= now;
      actions := map id | id in actions :: if id in expired then actions[id].(state := Expired) else actions[id];
      assert actions == map id | id in before :: ExpireRow(before[id], now);
    }

    method FindActionForJob(job: nat) returns (r: Option<nat>)
      requires Valid()
      ensures r == ActionForJob(actions, job)
    {
      if id :| id in actions && actions[id].state == Dispatched && actions[id].job == Some(job) {
        SentIsUnique(actions, job, id);
        r := Some(id);
      } else {
        r := None;
      }
    }

    // ---- the runner --------------------------------------------------------------------------

    // A job for the device, sent or failed at once.
    method Send(device: nat, kind: J.Kind, works: bool, reason: Str, now: int) returns (job: nat)
      requires jobs.Valid()
      modifies jobs
      ensures jobs.Valid()
      ensures View() == SendJob(old(View()), device, kind, works, reason, now)
      ensures job == old(jobs.nextId)
    {
      job := jobs.CreateJob(device, kind, now);
      if !works {
        jobs.FailUndispatched(job, reason);
      }
    }

    method Work(id: nat, a: Action, f: Findings, reason: Str, now: int) returns (sent: Option<nat>)
      requires Valid()
      requires id in actions && actions[id].device == a.device && actions[id].kind == a.kind
      modifies this`actions, jobs
      ensures Valid() && View() == RunItem(old(View()), id, a, f, reason, now)
      ensures ComesTo(old(View()), View(), id, a, f, reason, now)
      ensures sent == if GetsJob(old(jobs.rows), a, f) && f.sendWorks then Some(old(jobs.nextId)) else None
      ensures sent == if Goes(old(View()), a, f, now) then Some(old(jobs.nextId)) else None
    {
      RunItemKeeps(View(), id, a, f, reason, now);
      ItemComesTo(View(), id, a, f, reason, now);
      DecisionIs(jobs.rows, a, f, now);
      hide ComesTo, GetsJob, IsIdle, IsHopeless;
      sent := None;
      var running := jobs.ActiveJobOfKind(a.device, J.PatchInstall);
      assert running.Some? <==> InstallRuns(jobs.rows, a.device);
      hide InstallRuns, Inv;
      if !f.hasAgent {
        actions := actions[id := actions[id].(state := Failed)];
      } else if a.kind == Install {
        if running.None? && !f.awaitingReport {
          if f.nothingToInstall {
            actions := actions[id := actions[id].(state := Done)];
          } else {
            var job := Send(a.device, J.PatchInstall, f.sendWorks, reason, now);
            if f.sendWorks { sent := Some(job); }
          }
        }
      } else if a.kind == RunScript {
        if f.scriptGone || !f.scriptFits {
          actions := actions[id := actions[id].(state := Failed)];
        } else {
          var job := Send(a.device, J.Script, f.sendWorks, reason, now);
          if f.sendWorks { sent := Some(job); }
        }
      } else if f.rebootRequired.Some? && running.None? {
        if f.rebootRequired.value != Some(true) {
          if now - a.createdAt >= REBOOT_DECISION_S {
            actions := actions[id := actions[id].(state := Done)];
          }
        } else if !f.restartKnown {
          actions := actions[id := actions[id].(state := Failed)];
        } else {
          var job := Send(a.device, J.Shell, f.sendWorks, reason, now);
          if f.sendWorks { sent := Some(job); }
        }
      }
      if sent.Some? {
        actions := actions[id := actions[id].(state := Dispatched, job := sent)];
      }
      assert View() == RunItem(old(View()), id, a, f, reason, now);
    }

    // Dispatch what is due for a connected device that still exists; the ids of the jobs that
    // went out.
    method RunDue(device: nat, connected: bool, known: bool, find: nat -> Findings, reason: Str, now: int)
      returns (created: seq<nat>, due: Due)
      requires Valid()
      modifies this`actions, jobs
      ensures Valid()
      ensures if connected && known then IsDueList(due, old(actions), device, now) else due == []
      ensures View() == Worked(old(View()), due, |due|, find, reason, now)
      ensures created == SentOut(old(View()), due, |due|, find, reason, now)
    {
      created, due := [], [];
      if !connected || !known {
        return;
      }
      due := DueForDevice(device, now);
      ghost var before := View();
      for i := 0 to |due|
        invariant Valid()
        invariant View() == Worked(before, due, i, find, reason, now)
        invariant created == SentOut(before, due, i, find, reason, now)
      {
        var item := due[i];
        NextItem(before, due, i, find, reason, now, device);
        hide Inv, RunItem, Goes, Worked, SentOut, IsDueList, Store.Valid;
        var sent := Work(item.0, item.1, find(item.0), reason, now);
        if sent.Some? {
          created := created + [sent.value];
        }
      }
    }

    method OnFinished(job: nat, word: string, now: int)
      requires Valid()
      modifies this
      ensures Valid() && View() == OnJobFinished(old(View()), job, word, now)
    {
      OnJobFinishedKeeps(View(), job, word, now);
      var found := FindActionForJob(job);
      if found.Some? {
        var a := actions[found.value];
        MarkClosedKeeps(View(), found.value, if word == "done" then Done else Failed);
        actions := actions[found.value := a.(state := if word == "done" then Done else Failed)];
        if word == "done" && a.kind == Install && a.ask.reboot {
          var _, _ := Create(a.device, Reboot, None, Ask(false, false, Some(now + REBOOT_TTL_S)), now);
        }
      }
    }

    // The cleanup: actions whose time ran out, then those whose job is over unreported.
    method Housekeeping(now: int)
      requires Valid()
      modifies this
      ensures Valid() && forall id :: !IsOver(View(), id)
      ensures exists over :: View() == CloseOver(Actions.Expire(old(View()), now), over, now)
      ensures forall id :: EndsWithItsJob(old(View()), View(), id)
    {
      var _ := Expire(now);
      ghost var before := View();
      var left := set id | id in actions && actions[id].state == Dispatched && actions[id].job.Some?
                           && actions[id].job.value in jobs.rows && J.Terminal(jobs.rows[actions[id].job.value].status) :: actions[id].job.value;
      ghost var over: seq<nat> := [];
      while left != {}
        invariant Valid() && jobs.rows == before.jobs
        invariant View() == CloseOver(before, over, now)
        invariant forall id :: IsOver(before, id) ==> before.actions[id].job.value in left || before.actions[id].job.value in over
        invariant left <= before.jobs.Keys
        invariant forall j :: j in left || j in over ==> j in before.jobs && J.Terminal(before.jobs[j].status)
        decreases |left|
      {
        var job :| job in left;
        left := left - {job};
        JobsUntouched(View(), job, WordOf(jobs.rows[job].status), now);
        CloseOverSnoc(before, over, job, now);
        OnFinished(job, WordOf(jobs.rows[job].status), now);
        over := over + [job];
      }
      CloseOverLeavesNone(before, over, now);
      forall id
        ensures EndsWithItsJob(old(View()), View(), id)
      {
        CloseOverEndsAs(before, over, now, id);
        CleanupEndsAs(old(View()), before, View(), id, over);
      }
    }
  }

  // A sent action whose job is over is done exactly if the job's row is, and failed otherwise;
  // one whose job is not over stays as it is.
  ghost predicate EndsWithItsJob(before: Db, after: Db, id: nat) {
    id in before.actions && before.actions[id].state == Dispatched ==>
      && id in after.actions
      && var job := before.actions[id].job;
         var over := job.Some? && job.value in before.jobs && before.jobs[job.value].status in {J.Done, J.Failed, J.Timeout};
         after.actions[id] ==
           if !over then before.actions[id]
           else before.actions[id].(state := if before.jobs[job.value].status == J.Done then Done else Failed)
  }

  lemma CleanupEndsAs(was: Db, before: Db, after: Db, id: nat, over: seq<nat>)
    requires before.jobs == was.jobs && IsClosedBy(before, after, id, over)
    requires id in was.actions && was.actions[id].state == Dispatched ==> id in before.actions && before.actions[id] == was.actions[id]
    requires forall j :: j in over ==> j in before.jobs && J.Terminal(before.jobs[j].status)
    requires IsOver(before, id) ==> before.actions[id].job.value in over
    ensures EndsWithItsJob(was, after, id)
  {
  }

  lemma {:induction false} CloseOverSnoc(db: Db, over: seq<nat>, job: nat, now: int)
    requires job in db.jobs
    ensures CloseOver(db, over, now).jobs == db.jobs
    ensures CloseOver(db, over + [job], now) == OnJobFinished(CloseOver(db, over, now), job, WordOf(db.jobs[job].status), now)
    decreases |over|
  {
    if over == [] {
      assert ([job])[1..] == [];
    } else {
      assert (over + [job])[1..] == over[1..] + [job];
      if over[0] in db.jobs {
        var word := WordOf(db.jobs[over[0]].status);
        JobsUntouched(db, over[0], word, now);
        CloseOverSnoc(OnJobFinished(db, over[0], word, now), over[1..], job, now);
      } else {
        CloseOverSnoc(db, over[1..], job, now);
      }
      hide OnJobFinished, WordOf;
    }
  }
}
