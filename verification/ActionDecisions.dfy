// What becomes of an action the runner comes to, kind by kind, from what it finds.
module ActionDecisions {
  import opened Text
  import opened Wrappers
  import opened JobsTable
  import opened Actions
  import opened ActionInvariant
  import opened ActionRuns
  import J = Jobs

  // An install is queued or running on the device.
  ghost predicate InstallOn(jobs: J.Table, device: nat) {
    exists j :: j in jobs && jobs[j].device == device && jobs[j].kind == J.PatchInstall &&
      (jobs[j].status == J.Queued || jobs[j].status == J.Running)
  }

  // A job is made for it: there are updates and nothing stands against installing them; there
  // is a script for this system; the heartbeat says that a restart is required, no install is
  // in its way, and the restart command is known.
  ghost predicate GetsJob(jobs: J.Table, a: Action, f: Findings) {
    && f.hasAgent
    && (a.kind == Install ==> !InstallOn(jobs, a.device) && !f.awaitingReport && !f.nothingToInstall)
    && (a.kind == RunScript ==> !f.scriptGone && f.scriptFits)
    && (a.kind == Reboot ==> f.rebootRequired == Some(Some(true)) && !InstallOn(jobs, a.device) && f.restartKnown)
  }

  // There is nothing to do for it: no updates, or for a quarter of an hour no heartbeat that
  // said a restart was required.
  ghost predicate IsIdle(jobs: J.Table, a: Action, f: Findings, now: int) {
    && f.hasAgent && !InstallOn(jobs, a.device)
    && (a.kind == Install ==> !f.awaitingReport && f.nothingToInstall)
    && a.kind != RunScript
    && (a.kind == Reboot ==> (f.rebootRequired == Some(None) || f.rebootRequired == Some(Some(false))) && now >= a.createdAt + 900)
  }

  // It cannot be done on this device.
  ghost predicate IsHopeless(jobs: J.Table, a: Action, f: Findings) {
    || !f.hasAgent
    || (a.kind == RunScript && (f.scriptGone || !f.scriptFits))
    || (a.kind == Reboot && f.rebootRequired == Some(Some(true)) && !InstallOn(jobs, a.device) && !f.restartKnown)
  }

  // The job made for an action; one that could not be sent has failed with the reason.
  ghost predicate IsItsJob(j: J.Job, a: Action, sent: bool, reason: Str, now: int) {
    && j.device == a.device && j.exitCode == None && j.createdAt == now
    && (a.kind == Install ==> j.kind == J.PatchInstall) && (a.kind == RunScript ==> j.kind == J.Script)
    && (a.kind == Reboot ==> j.kind == J.Shell)
    && (if sent then j.status == J.Queued && j.output == [] else j.status == J.Failed && j.output == reason)
  }

  // Everything that can come of it. `a` is the action as it was when the due list was read.
  ghost predicate ComesTo(before: Db, after: Db, id: nat, a: Action, f: Findings, reason: Str, now: int) {
    && after.nextAction == before.nextAction && after.actions.Keys == before.actions.Keys
    && (forall i :: i in before.actions && i != id ==> after.actions[i] == before.actions[i])
    && (id in before.actions ==>
          after.actions[id] ==
            if GetsJob(before.jobs, a, f) then
              if f.sendWorks then before.actions[id].(state := Dispatched, job := Some(before.nextJob)) else before.actions[id]
            else if IsIdle(before.jobs, a, f, now) then before.actions[id].(state := Done)
            else if IsHopeless(before.jobs, a, f) then before.actions[id].(state := Failed)
            else before.actions[id])
    && (if GetsJob(before.jobs, a, f) then
          && after.nextJob == before.nextJob + 1 && after.jobs.Keys == before.jobs.Keys + {before.nextJob}
          && (forall j :: j in before.jobs && j != before.nextJob ==> after.jobs[j] == before.jobs[j])
          && IsItsJob(after.jobs[before.nextJob], a, f.sendWorks, reason, now)
        else after.nextJob == before.nextJob && after.jobs == before.jobs)
  }

  lemma RunsMeansOn(jobs: J.Table, device: nat)
    ensures InstallRuns(jobs, device) <==> InstallOn(jobs, device)
  {
    if InstallRuns(jobs, device) {
      var j :| j in jobs && IsActive(jobs, j, device, J.PatchInstall);
      assert jobs[j].device == device;
    }
    if InstallOn(jobs, device) {
      var j :| j in jobs && jobs[j].device == device && jobs[j].kind == J.PatchInstall && (jobs[j].status == J.Queued || jobs[j].status == J.Running);
      assert IsActive(jobs, j, device, J.PatchInstall);
    }
  }

  // A job of another kind is always created, an install only beside no other on the device.
  lemma JobStepsAre(s: System, device: nat, kind: J.Kind, works: bool, reason: Str)
    requires kind != J.PatchInstall
    ensures var row := J.Job(device, kind, if works then J.Queued else J.Failed, None, if works then [] else reason, s.now);
            var other, install := Step(s, OtherJob(device, kind, works, reason)), Step(s, Install_(device, works, reason));
            && other == s.(db := s.db.(jobs := s.db.jobs[s.db.nextJob := row], nextJob := s.db.nextJob + 1))
            && install ==
                 if InstallOn(s.db.jobs, device) then s
                 else s.(db := s.db.(jobs := s.db.jobs[s.db.nextJob := row.(kind := J.PatchInstall)], nextJob := s.db.nextJob + 1))
  {
    RunsMeansOn(s.db.jobs, device);
    hide InstallOn, InstallRuns;
  }

  lemma DecisionIs(jobs: J.Table, a: Action, f: Findings, now: int)
    ensures Decide(jobs, a, f, now) ==
            if GetsJob(jobs, a, f) then Send(JobKind(a.kind))
            else if IsIdle(jobs, a, f, now) then Close(Done)
            else if IsHopeless(jobs, a, f) then Close(Failed)
            else Leave
  {
    RunsMeansOn(jobs, a.device);
    hide InstallRuns, InstallOn;
    var r := f.rebootRequired;
    assert r == None || r == Some(None) || r == Some(Some(true)) || r == Some(Some(false)) by {
      if r.Some? && r.value.Some? { assert r.value.value || !r.value.value; }
    }
    assert REBOOT_DECISION_S == 900;
  }

  lemma ItemComesTo(db: Db, id: nat, a: Action, f: Findings, reason: Str, now: int)
    ensures ComesTo(db, RunItem(db, id, a, f, reason, now), id, a, f, reason, now)
  {
    DecisionIs(db.jobs, a, f, now);
    hide Decide, GetsJob, IsIdle, IsHopeless;
  }

  // Whoever reads the list and whatever happens before the action's turn: the step at its turn
  // comes to just that.
  lemma StepComesTo(s: System, id: nat, f: Findings, reason: Str)
    requires id in s.due
    ensures ComesTo(s.db, Step(s, Item(id, f, reason)).db, id, s.due[id], f, reason, s.now)
  {
    ItemComesTo(s.db, id, s.due[id], f, reason, s.now);
    hide ComesTo, RunItem, Picked;
  }

  // A restart is sent exactly if there is an agent, its heartbeat says one is required, no
  // install is queued or running, the command is known and the send works. The action ends as
  // done without one exactly if a heartbeat is there that does not say so, no install is in the
  // way, and the action is a quarter of an hour old; as failed if the device cannot be restarted.
  lemma RebootIff(s: System, id: nat, f: Findings, reason: Str)
    requires Safe(s) && id in s.due && id in s.db.actions && s.due[id].kind == Reboot
    ensures var a, after := s.due[id], Step(s, Item(id, f, reason)).db.actions;
            && id in after
            && (after[id].state == Dispatched <==>
                f.hasAgent && f.rebootRequired == Some(Some(true)) && !InstallOn(s.db.jobs, a.device) && f.restartKnown && f.sendWorks)
            && (after[id].state == Done <==>
                f.hasAgent && f.rebootRequired.Some? && f.rebootRequired != Some(Some(true)) && !InstallOn(s.db.jobs, a.device)
                && s.now - a.createdAt >= 900)
            && (after[id].state == Failed <==>
                !f.hasAgent || (f.rebootRequired == Some(Some(true)) && !InstallOn(s.db.jobs, a.device) && !f.restartKnown))
  {
    StepComesTo(s, id, f, reason);
    NotClosedYet(s, id);
    hide Safe, Step, InstallOn;
  }

  // An install is sent exactly if there is an agent, none is queued or running, no scan report
  // is awaited, there are updates and the send works.
  lemma InstallIff(s: System, id: nat, f: Findings, reason: Str)
    requires Safe(s) && id in s.due && id in s.db.actions && s.due[id].kind == Install
    ensures var a, after := s.due[id], Step(s, Item(id, f, reason)).db.actions;
            && id in after
            && (after[id].state == Dispatched <==>
                f.hasAgent && !InstallOn(s.db.jobs, a.device) && !f.awaitingReport && !f.nothingToInstall && f.sendWorks)
            && (after[id].state == Done <==> f.hasAgent && !InstallOn(s.db.jobs, a.device) && !f.awaitingReport && f.nothingToInstall)
            && (after[id].state == Failed <==> !f.hasAgent)
  {
    StepComesTo(s, id, f, reason);
    NotClosedYet(s, id);
    hide Safe, Step, InstallOn;
  }

  // A script is sent exactly if there is an agent, the script is still there, is meant for this
  // system, and the send works; a running install does not hold it up.
  lemma ScriptIff(s: System, id: nat, f: Findings, reason: Str)
    requires Safe(s) && id in s.due && id in s.db.actions && s.due[id].kind == RunScript
    ensures var after := Step(s, Item(id, f, reason)).db.actions;
            && id in after
            && (after[id].state == Dispatched <==> f.hasAgent && !f.scriptGone && f.scriptFits && f.sendWorks)
            && after[id].state != Done
            && (after[id].state == Failed <==> !f.hasAgent || f.scriptGone || !f.scriptFits)
  {
    StepComesTo(s, id, f, reason);
    NotClosedYet(s, id);
    hide Safe, Step, InstallOn;
  }

  lemma NotClosedYet(s: System, id: nat)
    requires Safe(s) && id in s.due && id in s.db.actions
    ensures s.db.actions[id].state in {Pending, Cancelled, Expired}
  {
  }

  // ---- the end of its job ----------------------------------------------------------------

  // A reported end: the action is done exactly if the word is, failed by any other word.
  lemma ResultEndsAs(s: System, job: nat, word: string, exitCode: Option<int>, id: nat)
    requires Safe(s) && id in s.db.actions && s.db.actions[id].state == Dispatched && s.db.actions[id].job == Some(job)
    ensures var after := Step(s, Result(job, word, exitCode)).db.actions;
            && id in after && (after[id].state == Done <==> word == "done") && (after[id].state == Failed <==> word != "done")
  {
    EndsAs(s.db.(jobs := OnRow(s.db.jobs, job, J.Finished(J.ReportedStatus(word), exitCode))), job, word, s.now, id);
    FinishIsOnJobFinished(s.(db := s.db.(jobs := OnRow(s.db.jobs, job, J.Finished(J.ReportedStatus(word), exitCode)))), job, word);
    hide Inv, Finish, OnJobFinished, OnRow;
  }

  lemma EndsAs(db: Db, job: nat, word: string, now: int, id: nat)
    requires OwnJobs(db.actions) && (forall i :: i in db.actions ==> i < db.nextAction)
    requires id in db.actions && db.actions[id].state == Dispatched && db.actions[id].job == Some(job)
    ensures var after := OnJobFinished(db, job, word, now).actions;
            id in after && after[id].state == if word == "done" then Done else Failed
  {
    var found := ActionForJob(db.actions, job);
    assert found == Some(id);
    hide ActionForJob, PendingFor;
  }

  // The cleanup ends an action whose job is over unreported, as done exactly if its row is.
  lemma HousekeepEndsAs(s: System, job: nat, id: nat)
    requires Safe(s) && id in s.db.actions && s.db.actions[id].state == Dispatched && s.db.actions[id].job == Some(job)
    requires job in s.db.jobs && s.db.jobs[job].status in {J.Done, J.Failed, J.Timeout}
    ensures var after := Step(s, Housekeep(job)).db.actions;
            && id in after && (after[id].state == Done <==> s.db.jobs[job].status == J.Done)
            && (after[id].state == Failed <==> s.db.jobs[job].status != J.Done)
  {
    EndsAs(s.db, job, WordOf(s.db.jobs[job].status), s.now, id);
    FinishIsOnJobFinished(s, job, WordOf(s.db.jobs[job].status));
    hide Inv, Finish, OnJobFinished;
  }

  // A sent action as it is once the cleanup has gone through these jobs.
  ghost predicate IsClosedBy(before: Db, after: Db, id: nat, jobs: seq<nat>) {
    id in before.actions && before.actions[id].state == Dispatched ==>
      id in after.actions &&
      if before.actions[id].job.Some? && before.actions[id].job.value in jobs && before.actions[id].job.value in before.jobs
      then after.actions[id] == before.actions[id].(state := if before.jobs[before.actions[id].job.value].status == J.Done then Done else Failed)
      else after.actions[id] == before.actions[id]
  }

  lemma {:induction false} CloseOverEndsAs(db: Db, jobs: seq<nat>, now: int, id: nat)
    requires Inv(db)
    ensures IsClosedBy(db, CloseOver(db, jobs, now), id, jobs)
    decreases |jobs|
  {
    if jobs != [] {
      assert jobs == [jobs[0]] + jobs[1..];
      if jobs[0] in db.jobs {
        var word := WordOf(db.jobs[jobs[0]].status);
        var next := OnJobFinished(db, jobs[0], word, now);
        OnJobFinishedKeeps(db, jobs[0], word, now);
        if id in db.actions && db.actions[id].state != Pending { OneEnd(db, jobs[0], word, now, id); }
        CloseOverEndsAs(next, jobs[1..], now, id);
        if id in db.actions && db.actions[id].state == Dispatched && db.actions[id].job == Some(jobs[0]) {
          StaysClosed(next, jobs[1..], now, id);
        }
      } else {
        CloseOverEndsAs(db, jobs[1..], now, id);
      }
    }
    hide Inv, OnJobFinished;
  }

  lemma OneEnd(db: Db, job: nat, word: string, now: int, id: nat)
    requires Inv(db) && id in db.actions && db.actions[id].state != Pending
    ensures var after := OnJobFinished(db, job, word, now);
            && after.jobs == db.jobs && id in after.actions
            && after.actions[id] == if db.actions[id].state == Dispatched && db.actions[id].job == Some(job)
                                    then db.actions[id].(state := if word == "done" then Done else Failed) else db.actions[id]
  {
    hide PendingFor, KeyFor, OneInstall, JobsThere, OnePending;
  }

  lemma {:induction false} StaysClosed(db: Db, jobs: seq<nat>, now: int, id: nat)
    requires Inv(db) && id in db.actions && Closed(db.actions[id].state)
    ensures id in CloseOver(db, jobs, now).actions && CloseOver(db, jobs, now).actions[id] == db.actions[id]
    decreases |jobs|
  {
    hide Inv, OnJobFinished;
    if jobs != [] {
      if jobs[0] in db.jobs {
        var word := WordOf(db.jobs[jobs[0]].status);
        OneEnd(db, jobs[0], word, now, id);
        OnJobFinishedKeeps(db, jobs[0], word, now);
        StaysClosed(OnJobFinished(db, jobs[0], word, now), jobs[1..], now, id);
      } else {
        StaysClosed(db, jobs[1..], now, id);
      }
    }
  }
}
