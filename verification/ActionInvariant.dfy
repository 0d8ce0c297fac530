// Queued actions and jobs together: what every storage function and runner step keeps.
module ActionInvariant {
  import opened Text
  import opened Wrappers
  import opened JobsTable
  import opened Actions
  import J = Jobs

  ghost predicate Fresh(db: Db) {
    && (forall id :: id in db.actions ==> id < db.nextAction)
    && (forall j :: j in db.jobs ==> j < db.nextJob)
    && (forall id :: id in db.actions && db.actions[id].job.Some? ==> db.actions[id].job.value < db.nextJob)
  }

  // No two actions share a job.
  ghost predicate OwnJobs(actions: map<nat, Action>) {
    forall a, b :: a in actions && b in actions && a != b && actions[a].job.Some? ==> actions[a].job != actions[b].job
  }

  function JobKind(k: Kind): J.Kind {
    match k
    case Install => J.PatchInstall
    case RunScript => J.Script
    case Reboot => J.Shell
  }

  // A dispatched action has its job, on its own device and of its own kind.
  ghost predicate JobThere(a: Action, jobs: J.Table) {
    a.state == Dispatched ==>
      && a.job.Some? && a.job.value in jobs
      && jobs[a.job.value].device == a.device && jobs[a.job.value].kind == JobKind(a.kind)
  }

  ghost predicate JobsThere(db: Db) { forall id :: id in db.actions ==> JobThere(db.actions[id], db.jobs) }

  // One queued or running install on a device.
  ghost predicate OneInstall(jobs: J.Table) {
    forall i, j, d :: i in jobs && j in jobs && IsActive(jobs, i, d, J.PatchInstall) && IsActive(jobs, j, d, J.PatchInstall) ==> i == j
  }

  // One pending action for a device, kind and script.
  ghost predicate OnePending(actions: map<nat, Action>) {
    forall a, b :: a in actions && b in actions && a != b && actions[a].state == Pending && actions[b].state == Pending ==>
      KeyOf(actions[a]) != KeyOf(actions[b])
  }

  ghost predicate Inv(db: Db) {
    Fresh(db) && OwnJobs(db.actions) && JobsThere(db) && OneInstall(db.jobs) && OnePending(db.actions)
  }

  // ---- the action table -----------------------------------------------------------------------

  predicate SameButAsk(a: Action, b: Action) { a == b.(ask := a.ask) }

  lemma CreateKeepsOnePending(db: Db, device: nat, kind: Kind, script: Option<nat>, ask: Ask, now: int)
    requires Fresh(db) && OnePending(db.actions)
    ensures OnePending(Create(db, device, kind, script, ask, now).actions)
  {
    var after := Create(db, device, kind, script, ask, now);
    assert forall id :: id in after.actions && id in db.actions ==> SameButAsk(after.actions[id], db.actions[id]);
  }

  lemma CreateKeeps(db: Db, device: nat, kind: Kind, script: Option<nat>, ask: Ask, now: int)
    requires Inv(db)
    ensures Inv(Create(db, device, kind, script, ask, now))
  {
    CreateKeepsOnePending(db, device, kind, script, ask, now);
    hide OneInstall, OnePending, KeyOf;
    var after := Create(db, device, kind, script, ask, now);
    assert after.jobs == db.jobs;
    assert forall id :: id in after.actions && id in db.actions ==> SameButAsk(after.actions[id], db.actions[id]);
  }

  lemma CancelKeeps(db: Db, id: nat, device: nat)
    requires Inv(db)
    ensures Inv(Cancel(db, id, device))
  {
    hide OneInstall;
  }

  lemma ExpireKeeps(db: Db, now: int)
    requires Inv(db)
    ensures Inv(Expire(db, now))
  {
    hide OneInstall;
  }

  lemma MarkClosedKeeps(db: Db, id: nat, s: State)
    requires Inv(db) && Closed(s)
    ensures Inv(MarkClosed(db, id, s))
  {
    hide OneInstall;
  }

  // ---- the job table --------------------------------------------------------------------------

  lemma SendJobKeepsOneInstall(db: Db, device: nat, kind: J.Kind, works: bool, reason: Str, now: int)
    requires Fresh(db) && OneInstall(db.jobs)
    requires kind == J.PatchInstall ==> !InstallRuns(db.jobs, device)
    ensures OneInstall(SendJob(db, device, kind, works, reason, now).jobs)
  {
    var after := SendJob(db, device, kind, works, reason, now).jobs;
    forall i, d | i in after && i != db.nextJob && IsActive(after, i, d, J.PatchInstall)
      ensures i in db.jobs && IsActive(db.jobs, i, d, J.PatchInstall)
    {
    }
  }

  lemma SendJobKeeps(db: Db, device: nat, kind: J.Kind, works: bool, reason: Str, now: int)
    requires Inv(db)
    requires kind == J.PatchInstall ==> !InstallRuns(db.jobs, device)
    ensures Inv(SendJob(db, device, kind, works, reason, now))
  {
    SendJobKeepsOneInstall(db, device, kind, works, reason, now);
    hide OneInstall, OwnJobs, OnePending;
  }

  // The same rows, and none of them opened again.
  ghost predicate OnlyEnds(before: J.Table, after: J.Table) {
    && before.Keys == after.Keys
    && forall i :: i in after ==>
         && after[i].device == before[i].device && after[i].kind == before[i].kind
         && (J.Terminal(before[i].status) ==> J.Terminal(after[i].status))
  }

  lemma EndsKeep(db: Db, after: J.Table)
    requires Inv(db) && OnlyEnds(db.jobs, after)
    ensures Inv(db.(jobs := after))
  {
    hide OwnJobs, OnePending;
    forall i, d | i in after && IsActive(after, i, d, J.PatchInstall)
      ensures i in db.jobs && IsActive(db.jobs, i, d, J.PatchInstall)
    {
    }
  }

  lemma RowKeeps(db: Db, job: nat, e: J.Event)
    requires Inv(db)
    ensures Inv(db.(jobs := OnRow(db.jobs, job, e)))
  {
    hide Inv;
    EndsKeep(db, OnRow(db.jobs, job, e));
  }

  lemma SweepKeeps(db: Db, cutoff: int, patchCutoff: int)
    requires Inv(db)
    ensures Inv(db.(jobs := SweptTable(db.jobs, cutoff, patchCutoff)))
  {
    hide Inv;
    EndsKeep(db, SweptTable(db.jobs, cutoff, patchCutoff));
  }

  // An action goes out with a job of its own.
  lemma DispatchKeeps(db: Db, id: nat, device: nat, kind: J.Kind, reason: Str, now: int)
    requires Inv(db)
    requires kind == J.PatchInstall ==> !InstallRuns(db.jobs, device)
    requires id in db.actions ==> db.actions[id].device == device && JobKind(db.actions[id].kind) == kind
    ensures Inv(MarkDispatched(SendJob(db, device, kind, true, reason, now), id, db.nextJob))
  {
    SendJobKeeps(db, device, kind, true, reason, now);
    var sent := SendJob(db, device, kind, true, reason, now);
    assert sent.jobs[db.nextJob].device == device;
    assert sent.nextJob == db.nextJob + 1 && sent.actions == db.actions;
    assert sent.jobs[db.nextJob].kind == kind;
    hide OneInstall, InstallRuns, SendJob, JobKind;
  }

  // ---- whole steps ------------------------------------------------------------------------------

  lemma RunItemKeeps(db: Db, id: nat, a: Action, f: Findings, reason: Str, now: int)
    requires Inv(db)
    requires id in db.actions ==> db.actions[id].device == a.device && db.actions[id].kind == a.kind
    ensures Inv(RunItem(db, id, a, f, reason, now))
  {
    var d := Decide(db.jobs, a, f, now);
    assert d == Send(J.PatchInstall) ==> !InstallRuns(db.jobs, a.device);
    assert d.Send? ==> d.kind == JobKind(a.kind);
    assert d.Close? ==> Closed(d.s);
    hide Inv, Decide, SendJob, MarkDispatched, MarkClosed, Closed, InstallRuns, JobKind;
    match d
    case Leave =>
    case Close(s) => MarkClosedKeeps(db, id, s);
    case Send(kind) =>
      if f.sendWorks {
        DispatchKeeps(db, id, a.device, kind, reason, now);
      } else {
        SendJobKeeps(db, a.device, kind, false, reason, now);
      }
  }

  lemma OnJobFinishedKeeps(db: Db, job: nat, word: string, now: int)
    requires Inv(db)
    ensures Inv(OnJobFinished(db, job, word, now))
  {
    hide Inv, Create, MarkClosed, ActionForJob;
    var found := ActionForJob(db.actions, job);
    if found.Some? {
      var closed := MarkClosed(db, found.value, if word == "done" then Done else Failed);
      MarkClosedKeeps(db, found.value, if word == "done" then Done else Failed);
      CreateKeeps(closed, db.actions[found.value].device, Reboot, None, Ask(false, false, Some(now + REBOOT_TTL_S)), now);
    }
  }

  lemma JobResultKeeps(db: Db, job: nat, word: string, exitCode: Option<int>, now: int)
    requires Inv(db)
    ensures Inv(JobResult(db, job, word, exitCode, now))
  {
    hide Inv, OnJobFinished, OnRow;
    var e := J.Finished(J.ReportedStatus(word), exitCode);
    RowKeeps(db, job, e);
    OnJobFinishedKeeps(db.(jobs := OnRow(db.jobs, job, e)), job, word, now);
  }

  lemma RequestInstallKeeps(db: Db, device: nat, works: bool, reason: Str, now: int)
    requires Inv(db)
    ensures Inv(RequestInstall(db, device, works, reason, now))
  {
    hide Inv, SendJob, InstallRuns;
    if !InstallRuns(db.jobs, device) {
      SendJobKeeps(db, device, J.PatchInstall, works, reason, now);
    }
  }
}
