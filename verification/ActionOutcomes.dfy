// What becomes of an action: results, cleanup, and the races between steps.
module ActionOutcomes {
  import opened Text
  import opened Wrappers
  import opened JobsTable
  import opened Actions
  import opened ActionInvariant
  import opened ActionRuns
  import J = Jobs

  // The runner does something about this item.
  predicate Acts(db: Db, a: Action, f: Findings, now: int) {
    var d := Decide(db.jobs, a, f, now);
    d.Close? || (d.Send? && f.sendWorks)
  }

  lemma ItemMovesIff(db: Db, id: nat, a: Action, f: Findings, reason: Str, now: int)
    requires id in db.actions && db.actions[id].state in {Cancelled, Expired}
    ensures id in RunItem(db, id, a, f, reason, now).actions
    ensures RunItem(db, id, a, f, reason, now).actions[id].state != db.actions[id].state <==> Acts(db, a, f, now)
  {
    hide InstallRuns;
  }

  // A closed action stays as it is while its device does, unless the runner still has it on a
  // list it read before and acts on it.
  lemma ClosedMovesIff(s: System, e: Event, id: nat)
    requires Safe(s) && id in s.db.actions && s.db.actions[id].state != Pending && s.db.actions[id].state != Dispatched
    ensures id in Step(s, e).db.actions <==> !(e.DeleteDevice? && e.device == s.db.actions[id].device)
    ensures id in Step(s, e).db.actions ==>
              (Step(s, e).db.actions[id].state != s.db.actions[id].state
               <==> e.Item? && e.id == id && id in s.due && Acts(s.db, s.due[id], e.findings, s.now))
  {
    assert Fresh(s.db) && OwnJobs(s.db.actions);
    if !IsMajor(e) {
      MinorChanges(s, e);
      hide Step, Changes, Inv, Safe;
    } else if e.Ask_? {
      AskChanges(s, e);
      hide Step, Changes, Inv, Safe;
    } else if e.Item? {
      ItemChanges(s, e);
      if e.id in s.due && e.id == id { ItemMovesIff(s.db, id, s.due[id], e.findings, e.reason, s.now); }
      hide RunItem, Inv, Acts, Changes, AskedMatches;
    } else if e.DeleteDevice? {
      DeletionChanges(s, e);
      hide Step, Changes, Inv, Safe;
    } else {
      EndChanges(s, e);
      hide Step, Inv, Safe, Acts, Changes;
    }
  }

  // And it does happen: a script is withdrawn after the runner read its list, and is sent
  // all the same.
  lemma CancelIsOverwritten(f: Findings)
    requires f.hasAgent && !f.scriptGone && f.scriptFits && f.sendWorks
    ensures var asked := Step(EMPTY, Ask_(7, RunScript, Some(3), Ask(false, false, None)));
            var withdrawn := Step(Step(asked, ReadDue(7)), Cancel_(1, 7));
            var after := Step(withdrawn, Item(1, f, []));
            withdrawn.db.actions[1].state == Cancelled && after.db.actions[1].state == Dispatched
  {
    var row := Action(7, RunScript, Some(3), Ask(false, false, None), 0, Pending, None);
    var asked := Step(EMPTY, Ask_(7, RunScript, Some(3), Ask(false, false, None)));
    assert asked.db.actions == map[1 := row];
    var read := Step(asked, ReadDue(7));
    assert read.due == map[1 := row];
    var withdrawn := Step(read, Cancel_(1, 7));
    assert withdrawn.db.actions == map[1 := row.(state := Cancelled)];
    var after := Step(withdrawn, Item(1, f, []));
    assert after.db.actions[1].state == Dispatched;
  }

  // A second result for the same job changes nothing, whatever it says.
  lemma ResultsRepeat(db: Db, job: nat, word: string, exitCode: Option<int>, now: int,
                      word2: string, exitCode2: Option<int>, now2: int)
    requires Inv(db)
    ensures JobResult(JobResult(db, job, word, exitCode, now), job, word2, exitCode2, now2) == JobResult(db, job, word, exitCode, now)
  {
    var once := JobResult(db, job, word, exitCode, now);
    RowOnce(db.jobs, job, J.Finished(J.ReportedStatus(word), exitCode), J.Finished(J.ReportedStatus(word2), exitCode2));
    var ended := db.(jobs := OnRow(db.jobs, job, J.Finished(J.ReportedStatus(word), exitCode)));
    RowKeeps(db, job, J.Finished(J.ReportedStatus(word), exitCode));
    NothingLeftToClose(ended, job, word, now);
    assert once.jobs == ended.jobs by { hide ActionForJob, Create, MarkClosed, OnRow; JobsUntouched(ended, job, word, now); }
    hide OnRow, Inv, Create, MarkClosed;
  }

  lemma RowOnce(t: J.Table, job: nat, e: J.Event, e2: J.Event)
    requires e.Finished? && e2.Finished? && J.Terminal(e.status)
    ensures OnRow(OnRow(t, job, e), job, e2) == OnRow(t, job, e)
  {
    var once := OnRow(t, job, e);
    if job in t { assert once == once[job := once[job]]; }
  }

  lemma JobsUntouched(db: Db, job: nat, word: string, now: int)
    ensures OnJobFinished(db, job, word, now).jobs == db.jobs
  {
    hide PendingFor, ActionForJob;
  }

  lemma NothingLeftToClose(db: Db, job: nat, word: string, now: int)
    requires Inv(db)
    ensures ActionForJob(OnJobFinished(db, job, word, now).actions, job).None?
  {
    EndTouches(db, job, word, now);
    OnJobFinishedKeeps(db, job, word, now);
    NewOnesAreUnsent(db, job, word, now);
    hide OnJobFinished;
  }

  lemma NewOnesAreUnsent(db: Db, job: nat, word: string, now: int)
    ensures forall id :: id in OnJobFinished(db, job, word, now).actions && id !in db.actions ==>
              OnJobFinished(db, job, word, now).actions[id].state == Pending
  {
    hide PendingFor, ActionForJob, KeyFor;
  }

  // An install that wanted a restart and whose job ends as done leaves one waiting for at least
  // a day.
  lemma InstallLeavesItsReboot(db: Db, job: nat, now: int, id: nat)
    requires Inv(db) && ActionForJob(db.actions, job) == Some(id)
    requires db.actions[id].kind == Install && db.actions[id].ask.reboot
    ensures var after := OnJobFinished(db, job, "done", now);
            && id in after.actions && after.actions[id].state == Done
            && exists r :: r in after.actions && after.actions[r].state == Pending && after.actions[r].kind == Reboot
                           && after.actions[r].device == db.actions[id].device
                           && Outlasts(after.actions[r].ask.expiresAt, Some(now + 86400))
  {
    var closed := MarkClosed(db, id, Done);
    var device := db.actions[id].device;
    var found := PendingFor(closed.actions, KeyFor(device, Reboot, None));
    var after := OnJobFinished(db, job, "done", now);
    assert after == Create(closed, device, Reboot, None, Ask(false, false, Some(now + REBOOT_TTL_S)), now);
    var r := if found.Some? then found.value else closed.nextAction;
    assert closed.actions[id].state == Done && id < closed.nextAction;
    assert r in after.actions && after.actions[r].state == Pending;
    hide Inv, ActionForJob, OnJobFinished, PendingFor;
  }

  ghost predicate RebootWaits(actions: map<nat, Action>, device: nat) {
    exists r :: r in actions && actions[r].state == Pending && actions[r].kind == Reboot && actions[r].device == device
  }

  // An install that wanted a restart and comes to be done has one waiting afterwards exactly if
  // it was its job that ended, or one was waiting before. Otherwise the runner closed it,
  // having found nothing to install.
  lemma DoneHasItsRebootIff(s: System, e: Event, id: nat)
    requires Safe(s) && id in s.db.actions && s.db.actions[id].kind == Install && s.db.actions[id].ask.reboot
    requires s.db.actions[id].state != Done && id in Step(s, e).db.actions && Step(s, e).db.actions[id].state == Done
    ensures RebootWaits(Step(s, e).db.actions, s.db.actions[id].device) <==>
            IsEnd(e) || RebootWaits(s.db.actions, s.db.actions[id].device)
    ensures !IsEnd(e) ==> e.Item? && e.id == id && e.findings.hasAgent && e.findings.nothingToInstall
  {
    assert Fresh(s.db) && OwnJobs(s.db.actions);
    hide Inv, Step, Changes, RebootWaits, AskedMatches;
    if !IsMajor(e) { MinorChanges(s, e); }
    if e.Ask_? { AskChanges(s, e); }
    if e.DeleteDevice? { DeletionChanges(s, e); }
    if e.Item? { ClosedByTheRunner(s, e, id); }
    if IsEnd(e) { ClosedByItsJob(s, e, id); }
  }

  lemma ClosedByTheRunner(s: System, e: Event, id: nat)
    requires e.Item? && DueMatches(s) && id in s.db.actions && s.db.actions[id].kind == Install
    requires s.db.actions[id].state != Done && id in Step(s, e).db.actions && Step(s, e).db.actions[id].state == Done
    ensures e.id == id && e.findings.hasAgent && e.findings.nothingToInstall
    ensures RebootWaits(Step(s, e).db.actions, s.db.actions[id].device) <==> RebootWaits(s.db.actions, s.db.actions[id].device)
  {
    ItemChanges(s, e);
    hide InstallRuns, Changes;
    assert forall r :: r in s.db.actions && r != id ==> Step(s, e).db.actions[r] == s.db.actions[r];
    assert Step(s, e).db.actions[id].kind == Install by { ItemTouches(s.db, id, s.due[id], e.findings, e.reason, s.now); }
  }

  lemma ClosedByItsJob(s: System, e: Event, id: nat)
    requires Safe(s) && IsEnd(e) && id in s.db.actions && s.db.actions[id].kind == Install && s.db.actions[id].ask.reboot
    requires s.db.actions[id].state != Done && id in Step(s, e).db.actions && Step(s, e).db.actions[id].state == Done
    ensures RebootWaits(Step(s, e).db.actions, s.db.actions[id].device)
  {
    EndIsFinish(s, e);
    var ended := Ended(s, e);
    var word :| Step(s, e) == Finish(ended, e.job, word);
    EndedKeeps(s, e);
    hide Step, Finish, Ended, AskedMatches, DueMatches, NoneOfGone;
    FinishIsOnJobFinished(ended, e.job, word);
    EndTouches(ended.db, e.job, word, s.now);
    assert s.db.actions[id].state == Dispatched && s.db.actions[id].job == Some(e.job);
    assert ActionForJob(ended.db.actions, e.job) == Some(id);
    FinishedWord(ended.db, e.job, word, s.now, id);
    InstallLeavesItsReboot(ended.db, e.job, s.now, id);
    hide OnJobFinished, Inv;
  }

  lemma EndedKeeps(s: System, e: Event)
    requires IsEnd(e) && Inv(s.db)
    ensures Inv(Ended(s, e).db) && Ended(s, e).now == s.now
  {
    if e.Result? { RowKeeps(s.db, e.job, J.Finished(J.ReportedStatus(e.word), e.exitCode)); }
  }

  lemma FinishedWord(db: Db, job: nat, word: string, now: int, id: nat)
    requires Inv(db) && ActionForJob(db.actions, job) == Some(id)
    requires id in OnJobFinished(db, job, word, now).actions && OnJobFinished(db, job, word, now).actions[id].state == Done
    ensures word == "done"
  {
    hide ActionForJob, Create;
  }

  // Such an install: it is closed as done because nothing is pending, and no restart is queued.
  lemma NothingToInstallLeavesNoReboot(f: Findings)
    requires f.hasAgent && !f.awaitingReport && f.nothingToInstall
    ensures var read := Step(Step(EMPTY, Ask_(7, Install, None, Ask(false, true, None))), ReadDue(7));
            var after := Step(read, Item(1, f, []));
            && 1 in after.db.actions && after.db.actions[1].state == Done && after.db.actions[1].ask.reboot
            && !RebootWaits(after.db.actions, 7)
  {
    var row := Action(7, Install, None, Ask(false, true, None), 0, Pending, None);
    var asked := Step(EMPTY, Ask_(7, Install, None, Ask(false, true, None)));
    assert asked.db.actions == map[1 := row] && asked.db.jobs == map[];
    var read := Step(asked, ReadDue(7));
    assert read.due == map[1 := row];
    var after := Step(read, Item(1, f, []));
    assert after.db.actions == map[1 := row.(state := Done)];
  }

  // A restart is only left behind by an install that asked for one and went through.
  lemma OnlyThenAReboot(db: Db, job: nat, word: string, now: int)
    requires Inv(db)
    requires forall id :: ActionForJob(db.actions, job) == Some(id) && word == "done" && db.actions[id].kind == Install ==> !db.actions[id].ask.reboot
    ensures OnJobFinished(db, job, word, now).actions.Keys == db.actions.Keys
    ensures forall id :: id in db.actions && ActionForJob(db.actions, job) != Some(id) ==>
              OnJobFinished(db, job, word, now).actions[id] == db.actions[id]
  {
    hide ActionForJob, Create, Inv;
    var found := ActionForJob(db.actions, job);
    if found.Some? { assert ActionForJob(db.actions, job) == Some(found.value); }
  }

  lemma StaysShut(db: Db, job: nat, word: string, now: int, id: nat)
    requires Inv(db)
    ensures IsOver(OnJobFinished(db, job, word, now), id) ==>
              IsOver(db, id) && db.actions[id].job != Some(job) && OnJobFinished(db, job, word, now).actions[id].job == db.actions[id].job
  {
    EndTouches(db, job, word, now);
    JobsUntouched(db, job, word, now);
    NewOnesAreUnsent(db, job, word, now);
    hide OnJobFinished, Inv;
  }

  // Once the cleanup has gone through every job it found over, in whatever order, no sent
  // action is left whose job is over.
  lemma {:induction false} CloseOverLeavesNone(db: Db, jobs: seq<nat>, now: int)
    requires Inv(db)
    ensures Inv(CloseOver(db, jobs, now))
    ensures forall id :: IsOver(CloseOver(db, jobs, now), id) ==> IsOver(db, id) && db.actions[id].job.value !in jobs
    decreases |jobs|
  {
    if jobs != [] {
      hide Inv, OnJobFinished, IsOver, WordOf;
      assert jobs == [jobs[0]] + jobs[1..];
      if jobs[0] in db.jobs {
        var word := WordOf(db.jobs[jobs[0]].status);
        var next := OnJobFinished(db, jobs[0], word, now);
        OnJobFinishedKeeps(db, jobs[0], word, now);
        CloseOverLeavesNone(next, jobs[1..], now);
        forall id | IsOver(CloseOver(db, jobs, now), id)
          ensures IsOver(db, id) && db.actions[id].job.value !in jobs
        {
          StaysShut(db, jobs[0], word, now, id);
        }
      } else {
        CloseOverLeavesNone(db, jobs[1..], now);
      }
    }
  }

  // The install endpoint checks and creates in two steps. Its second half keeps to one
  // install a device exactly if none runs by then, or the device is gone.
  lemma CreateInstallKeepsIff(db: Db, device: nat, works: bool, reason: Str, now: int)
    requires Inv(db)
    ensures OneInstall(CreateInstall(db, device, works, reason, now).jobs) <==> !works || !InstallRuns(db.jobs, device)
  {
    var after := CreateInstall(db, device, works, reason, now);
    if works && InstallRuns(db.jobs, device) {
      var j :| j in db.jobs && IsActive(db.jobs, j, device, J.PatchInstall);
      assert IsActive(after.jobs, j, device, J.PatchInstall) && IsActive(after.jobs, db.nextJob, device, J.PatchInstall);
    } else {
      forall i, d | i in after.jobs && IsActive(after.jobs, i, d, J.PatchInstall)
        ensures (i in db.jobs && IsActive(db.jobs, i, d, J.PatchInstall)) || (i == db.nextJob && d == device && works)
      {
      }
    }
  }

  // Two requests that both found nothing running, then both go ahead.
  lemma TwoRequestsOverlap(device: nat, now: int)
    ensures var none := EMPTY.db;
            var two := CreateInstall(CreateInstall(none, device, true, [], now), device, true, [], now);
            !InstallRuns(none.jobs, device) && !OneInstall(two.jobs)
  {
    var two := CreateInstall(CreateInstall(EMPTY.db, device, true, [], now), device, true, [], now);
    assert IsActive(two.jobs, 1, device, J.PatchInstall) && IsActive(two.jobs, 2, device, J.PatchInstall);
  }

  // An action believes the reported word, its job row the first end it came to: they agree
  // exactly if the row was still open or had ended the same way.
  lemma ActionAndRowAgreeIff(db: Db, job: nat, word: string, exitCode: Option<int>, now: int, id: nat)
    requires Inv(db) && ActionForJob(db.actions, job) == Some(id)
    ensures var after := JobResult(db, job, word, exitCode, now);
            && id in after.actions && job in after.jobs
            && ((after.actions[id].state == Done <==> after.jobs[job].status == J.Done) <==>
                (!J.Terminal(db.jobs[job].status) || (word == "done" <==> db.jobs[job].status == J.Done)))
  {
    var row := J.Finished(J.ReportedStatus(word), exitCode);
    var ended := db.(jobs := OnRow(db.jobs, job, row));
    assert job in db.jobs;
    RowKeeps(db, job, row);
    EndTouches(ended, job, word, now);
    JobsUntouched(ended, job, word, now);
    var closed := MarkClosed(ended, id, if word == "done" then Done else Failed);
    CreateTouches(closed, db.actions[id].device, Reboot, None, Ask(false, false, Some(now + REBOOT_TTL_S)), now);
    assert JobResult(db, job, word, exitCode, now).actions[id].state == if word == "done" then Done else Failed by { hide Create; }
    hide Inv, OnJobFinished, Create, MarkClosed, ActionForJob;
  }

  // A script runs past its time limit and is swept; its "done" comes in afterwards. The row
  // stays timed out, the action is done.
  lemma DoneAfterTheSweep(f: Findings)
    requires f.hasAgent && !f.scriptGone && f.scriptFits && f.sendWorks
    ensures var read := Step(Step(EMPTY, Ask_(7, RunScript, Some(3), Ask(false, false, None))), ReadDue(7));
            var swept := Step(Step(read, Item(1, f, [])), Sweep(1, 1));
            var after := Step(swept, Result(1, "done", Some(0)));
            && 1 in after.db.actions && after.db.actions[1].state == Done
            && 1 in after.db.jobs && after.db.jobs[1].status == J.Timeout
  {
    hide Step;
    var row := Action(7, RunScript, Some(3), Ask(false, false, None), 0, Pending, None);
    var read := Step(Step(EMPTY, Ask_(7, RunScript, Some(3), Ask(false, false, None))), ReadDue(7));
    var sent := Step(read, Item(1, f, []));
    var job, gone := NewJob(7, J.Script, 0), row.(state := Dispatched, job := Some(1));
    assert read.due == map[1 := row] && read.db == Db(map[1 := row], 2, map[], 1) && read.now == 0 by { ScriptAsked(); }
    assert sent.db == Db(map[1 := gone], 2, map[1 := job], 2) by { ScriptSent(read, row, f); }
    var swept := Step(sent, Sweep(1, 1));
    assert swept.db == Db(map[1 := gone], 2, map[1 := job.(status := J.Timeout)], 2) by { SweptAt(sent, gone, job); }
    LateDone(swept, gone, job.(status := J.Timeout));
  }

  lemma SweptAt(sent: System, gone: Action, job: J.Job)
    requires sent.db == Db(map[1 := gone], 2, map[1 := job], 2) && job.status == J.Queued && job.createdAt == 0 && job.kind == J.Script
    ensures Step(sent, Sweep(1, 1)).db == Db(map[1 := gone], 2, map[1 := job.(status := J.Timeout)], 2)
  {
  }

  lemma ScriptAsked()
    ensures var read := Step(Step(EMPTY, Ask_(7, RunScript, Some(3), Ask(false, false, None))), ReadDue(7));
            var row := Action(7, RunScript, Some(3), Ask(false, false, None), 0, Pending, None);
            read.due == map[1 := row] && read.db == Db(map[1 := row], 2, map[], 1) && read.now == 0
  {
  }

  lemma ScriptSent(read: System, row: Action, f: Findings)
    requires row == Action(7, RunScript, Some(3), Ask(false, false, None), 0, Pending, None)
    requires read.due == map[1 := row] && read.db == Db(map[1 := row], 2, map[], 1) && read.now == 0
    requires f.hasAgent && !f.scriptGone && f.scriptFits && f.sendWorks
    ensures Step(read, Item(1, f, [])).db == Db(map[1 := row.(state := Dispatched, job := Some(1))], 2, map[1 := NewJob(7, J.Script, 0)], 2)
  {
  }

  lemma LateDone(s: System, a: Action, job: J.Job)
    requires s.db == Db(map[1 := a], 2, map[1 := job], 2) && a.state == Dispatched && a.job == Some(1) && a.kind == RunScript
    requires job.status == J.Timeout
    ensures var after := Step(s, Result(1, "done", Some(0)));
            && 1 in after.db.actions && after.db.actions[1].state == Done
            && 1 in after.db.jobs && after.db.jobs[1].status == J.Timeout
  {
    assert 1 in s.db.actions;
    assert ActionForJob(s.db.actions, 1) == Some(1);
  }
}
