// What the job of an install picks its updates by, and what its row says was asked for.
module ActionSelection {
  import opened Text
  import opened Wrappers
  import opened JobsTable
  import opened Actions
  import opened ActionInvariant
  import opened ActionRuns
  import J = Jobs

  // A request for all updates is merged into the row.
  ghost predicate Widens(s: System, e: Event, id: nat) {
    && e.Ask_? && e.device !in s.gone && !e.ask.securityOnly
    && PendingFor(s.db.actions, KeyFor(e.device, e.kind, e.script)) == Some(id)
  }

  ghost predicate WidenedIn(s: System, es: seq<Event>, id: nat)
    decreases |es|
  {
    es != [] && (Widens(s, es[0], id) || WidenedIn(Step(s, es[0]), es[1..], id))
  }

  // The runner does not come to the row, and does not give up on its device.
  predicate LeavesDue(e: Event, id: nat, device: nat) {
    !(e.Item? && e.id == id) && !(e.Abandon? && e.device == device)
  }

  lemma DueStays(s: System, e: Event, id: nat)
    requires DueMatches(s) && id in s.due && LeavesDue(e, id, s.due[id].device)
    ensures id in Step(s, e).due && Step(s, e).due[id] == s.due[id]
  {
    hide Create, Noted, RunItem, Picked, Cancel, Expire, OnRow, SweptTable, SendJob, RequestInstall, WithoutDevice;
    if IsEnd(e) {
      EndLeavesDue(s, e);
      hide Step, Finish;
    }
  }

  lemma EndLeavesDue(s: System, e: Event)
    requires IsEnd(e)
    ensures Step(s, e).due == s.due
  {
    EndIsFinish(s, e);
    hide Step, Finish, Ended;
    if Step(s, e) != s {
      var word :| Step(s, e) == Finish(Ended(s, e), e.job, word);
      FinishIsOnJobFinished(Ended(s, e), e.job, word);
    }
  }

  // A row stops asking for security updates only exactly by such a request.
  lemma RowStep(s: System, e: Event, id: nat)
    requires Safe(s) && id in s.db.actions && s.db.actions[id].kind == Install && id in Step(s, e).db.actions
    ensures Step(s, e).db.actions[id].kind == Install
    ensures Step(s, e).db.actions[id].ask.securityOnly <==> s.db.actions[id].ask.securityOnly && !Widens(s, e, id)
  {
    StepMovesUp(s, e);
    hide Step;
    if IsEnd(e) {
      EndKeepsInstalls(s, e, id);
    } else if e.Ask_? {
      AskWidens(s, e, id);
    } else if e.DeleteDevice? {
      DeletionChanges(s, e);
    } else if e.Item? {
      ItemChanges(s, e);
    } else {
      MinorChanges(s, e);
    }
    hide Safe, Changes;
  }

  lemma AskWidens(s: System, e: Event, id: nat)
    requires Safe(s) && e.Ask_? && id in s.db.actions && id in Step(s, e).db.actions
    ensures Step(s, e).db.actions[id].ask.securityOnly <==> s.db.actions[id].ask.securityOnly && !Widens(s, e, id)
  {
    hide PendingFor, KeyFor, Noted, OwnJobs, JobsThere, OneInstall, OnePending, DueMatches, AskedMatches, NoneOfGone;
  }

  lemma EndKeepsInstalls(s: System, e: Event, id: nat)
    requires Safe(s) && IsEnd(e) && id in s.db.actions && s.db.actions[id].kind == Install
    ensures id in Step(s, e).db.actions && Step(s, e).db.actions[id].ask == s.db.actions[id].ask
  {
    EndIsFinish(s, e);
    if Step(s, e) != s {
      hide Step, Finish, Ended, OnJobFinished;
      var word :| Step(s, e) == Finish(Ended(s, e), e.job, word);
      FinishIsOnJobFinished(Ended(s, e), e.job, word);
      EndAsksNothing(Ended(s, e).db, e.job, word, s.now, id);
    }
    hide Safe;
  }

  // The reboot an install leaves behind widens no install.
  lemma EndAsksNothing(db: Db, job: nat, word: string, now: int, id: nat)
    requires id in db.actions && id < db.nextAction && db.actions[id].kind == Install
    ensures var after := OnJobFinished(db, job, word, now).actions; id in after && after[id].ask == db.actions[id].ask
  {
    hide PendingFor, ActionForJob;
    var found := ActionForJob(db.actions, job);
    if found.Some? {
      var closed := MarkClosed(db, found.value, if word == "done" then Done else Failed);
      assert id in closed.actions && closed.actions[id].kind == Install && closed.actions[id].ask == db.actions[id].ask;
    }
  }

  // Between the reading of the due list and the item, the row goes on merging what is asked.
  lemma {:induction false} DueRun(s: System, es: seq<Event>, id: nat)
    requires Safe(s) && id in s.due && id in s.db.actions && s.db.actions[id].kind == Install
    requires forall e :: e in es ==> LeavesDue(e, id, s.due[id].device)
    requires id in Run(s, es).db.actions
    ensures var t := Run(s, es);
            && Safe(t) && id in t.due && t.due[id] == s.due[id]
            && (t.db.actions[id].ask.securityOnly <==> s.db.actions[id].ask.securityOnly && !WidenedIn(s, es, id))
    decreases |es|
  {
    hide Safe, Step, Widens, LeavesDue;
    if es != [] {
      var s' := Step(s, es[0]);
      StepIsSafe(s, es[0]);
      assert es[0] in es;
      assert DueMatches(s) by { IsDueMatched(s); }
      DueStays(s, es[0], id);
      assert id in s'.db.actions by {
        assert id < s'.db.nextAction by { StaysBelow(s, es[0], id); }
        if id !in s'.db.actions { NeverBack(s', es[1..], id, 3); }
      }
      RowStep(s, es[0], id);
      DueRun(s', es[1..], id);
    }
  }

  lemma IsDueMatched(s: System)
    requires Safe(s)
    ensures DueMatches(s)
  {
  }

  lemma StaysBelow(s: System, e: Event, id: nat)
    requires Safe(s) && id in s.db.actions
    ensures id < Step(s, e).db.nextAction
  {
    StepChanges(s, e);
    hide Step;
  }

  // An install is sent for a row of a due list, as it was when the list was read. The row says
  // what was asked for in all; its job's updates are picked by just that exactly if the row did
  // not ask for security updates only when it was read, or no request for all of them has been
  // merged into it since.
  lemma MergeIsCarriedIff(s: System, es: seq<Event>, id: nat, f: Findings, reason: Str)
    requires Safe(s) && id in s.due && id in s.db.actions && s.due[id] == s.db.actions[id] && s.due[id].kind == Install
    requires forall e :: e in es ==> LeavesDue(e, id, s.due[id].device)
    requires id in Run(s, es).db.actions && SendsInstall(Run(s, es), id, f)
    ensures var t := Run(s, es);
            var job, after := t.db.nextJob, Step(t, Item(id, f, reason));
            && id in after.db.actions && after.db.actions[id].state == Dispatched && after.db.actions[id].job == Some(job)
            && id in after.asked && after.asked[id] != [] && after.db.actions[id].ask == Merged(after.asked[id])
            && job in after.carried
            && (after.carried[job] == Merged(after.asked[id]).securityOnly <==>
                !(s.due[id].ask.securityOnly && WidenedIn(s, es, id)))
  {
    DueRun(s, es, id);
    var t := Run(s, es);
    StepIsSafe(t, Item(id, f, reason));
    SentAs(t, id, f, reason);
    hide Run, WidenedIn, Inv, DueMatches, NoneOfGone, Step;
  }

  lemma SentAs(t: System, id: nat, f: Findings, reason: Str)
    requires id in t.db.actions && SendsInstall(t, id, f)
    ensures var after := Step(t, Item(id, f, reason));
            && id in after.db.actions && after.db.actions[id].ask == t.db.actions[id].ask
            && after.db.actions[id].state == Dispatched && after.db.actions[id].job == Some(t.db.nextJob)
            && t.db.nextJob in after.carried && after.carried[t.db.nextJob] == t.due[id].ask.securityOnly
  {
    hide InstallRuns, Decide;
  }

  // Such a run: security updates are asked for, the list is read, all updates are asked for,
  // and the job that goes out has been picked for security only.
  lemma AllUpdatesAreNotSent(f: Findings)
    requires f.hasAgent && !f.awaitingReport && !f.nothingToInstall && f.sendWorks
    ensures var read := Step(Step(EMPTY, Ask_(7, Install, None, Ask(true, false, None))), ReadDue(7));
            var after := Step(Step(read, Ask_(7, Install, None, Ask(false, false, None))), Item(1, f, []));
            && 1 in after.db.actions && after.db.actions[1].state == Dispatched && after.db.actions[1].job == Some(1)
            && !after.db.actions[1].ask.securityOnly && 1 in after.carried && after.carried[1]
  {
    hide Step;
    var row := Action(7, Install, None, Ask(true, false, None), 0, Pending, None);
    var read := Step(Step(EMPTY, Ask_(7, Install, None, Ask(true, false, None))), ReadDue(7));
    assert read.due == map[1 := row] && read.db == Db(map[1 := row], 2, map[], 1) && read.gone == {} by { SecurityAsked(); }
    var asked := Step(read, Ask_(7, Install, None, Ask(false, false, None)));
    assert asked.due == read.due && asked.db == Db(map[1 := row.(ask := Ask(false, false, None))], 2, map[], 1) by { AllAsked(read, row); }
    assert SendsInstall(asked, 1, f);
    SentAs(asked, 1, f, []);
  }

  lemma SecurityAsked()
    ensures var read := Step(Step(EMPTY, Ask_(7, Install, None, Ask(true, false, None))), ReadDue(7));
            var row := Action(7, Install, None, Ask(true, false, None), 0, Pending, None);
            read.due == map[1 := row] && read.db == Db(map[1 := row], 2, map[], 1) && read.gone == {}
  {
  }

  lemma AllAsked(read: System, row: Action)
    requires row == Action(7, Install, None, Ask(true, false, None), 0, Pending, None)
    requires read.db == Db(map[1 := row], 2, map[], 1) && 7 !in read.gone
    ensures var asked := Step(read, Ask_(7, Install, None, Ask(false, false, None)));
            asked.due == read.due && asked.db == Db(map[1 := row.(ask := Ask(false, false, None))], 2, map[], 1)
  {
    assert 1 in read.db.actions;
  }
}
