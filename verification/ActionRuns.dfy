// Whole runs over queued actions and jobs.
module ActionRuns {
  import opened Text
  import opened Wrappers
  import opened JobsTable
  import opened Actions
  import opened ActionInvariant
  import J = Jobs

  // ---- what a row asks for is all that was asked ---------------------------------------------

  // The requests merged into one row, in the order they came.
  function Merged(asks: seq<Ask>): Ask
    requires asks != []
  {
    if |asks| == 1 then asks[0] else Widen(Merged(asks[..|asks| - 1]), asks[|asks| - 1])
  }

  predicate Outlasts(e: Option<int>, other: Option<int>) { e.None? || (other.Some? && e.value >= other.value) }

  // Security only if every request was; a reboot if one asked for it; the expiry that
  // outlasts the others.
  lemma {:induction false} MergedIsTheJoin(asks: seq<Ask>)
    requires asks != []
    ensures Merged(asks).securityOnly <==> forall a :: a in asks ==> a.securityOnly
    ensures Merged(asks).reboot <==> exists a :: a in asks && a.reboot
    ensures exists a :: a in asks && a.expiresAt == Merged(asks).expiresAt
    ensures forall a :: a in asks ==> Outlasts(Merged(asks).expiresAt, a.expiresAt)
  {
    var n := |asks| - 1;
    assert asks == asks[..n] + [asks[n]];
    if n == 0 {
      assert asks[0] in asks;
    } else {
      MergedIsTheJoin(asks[..n]);
      assert asks[n] in asks;
      assert forall a :: a in asks <==> a in asks[..n] || a == asks[n];
    }
  }

  // Nothing depends on the order the requests came in, or on how often one was repeated.
  lemma MergeIgnoresOrder(a: seq<Ask>, b: seq<Ask>)
    requires a != [] && b != []
    requires forall x :: x in a <==> x in b
    ensures Merged(a) == Merged(b)
  {
    MergedIsTheJoin(a);
    MergedIsTheJoin(b);
    var x :| x in a && x.expiresAt == Merged(a).expiresAt;
    var y :| y in b && y.expiresAt == Merged(b).expiresAt;
    assert Outlasts(Merged(b).expiresAt, x.expiresAt) && Outlasts(Merged(a).expiresAt, y.expiresAt);
    assert Merged(a).reboot == Merged(b).reboot;
    hide Merged;
  }

  // ---- the system ------------------------------------------------------------------------------

  // `due` holds the rows of the due lists being worked off, as they were when read, `asked`
  // the requests each row was created with and widened by, `carried` whether the updates of
  // an install's job were picked for security only, and `gone` the deleted devices, whose ids
  // are not used again.
  datatype System = System(
    db: Db, due: map<nat, Action>, asked: map<nat, seq<Ask>>, carried: map<nat, bool>, gone: set<nat>, now: int)

  datatype Event =
    | Ask_(device: nat, kind: Kind, script: Option<nat>, ask: Ask)
    | Cancel_(id: nat, device: nat)
    | Expire_
    | ReadDue(device: nat)
    | Item(id: nat, findings: Findings, reason: Str)
    | Abandon(device: nat)
    | JobReport(job: nat, event: J.Event)
    | Result(job: nat, word: string, exitCode: Option<int>)
    | Sweep(cutoff: int, patchCutoff: int)
    | Housekeep(job: nat)
    | Install_(device: nat, works: bool, reason: Str)
    | OtherJob(device: nat, jobKind: J.Kind, works: bool, reason: Str)
    | DeleteDevice(device: nat)
    | DropJobs(device: nat)
    | Tick(seconds: nat)

  ghost function Noted(asked: map<nat, seq<Ask>>, db: Db, key: Key, ask: Ask): map<nat, seq<Ask>> {
    match PendingFor(db.actions, key)
    case Some(id) => if id in asked then asked[id := asked[id] + [ask]] else asked
    case None => asked[db.nextAction := [ask]]
  }

  ghost function Requested(s: System, device: nat, kind: Kind, script: Option<nat>, ask: Ask): System {
    s.(db := Create(s.db, device, kind, script, ask, s.now), asked := Noted(s.asked, s.db, KeyFor(device, kind, script), ask))
  }

  // The action a job belonged to is closed, and an install may leave its reboot behind.
  ghost function Finish(s: System, job: nat, word: string): System {
    var found := ActionForJob(s.db.actions, job);
    if found.None? then s
    else
      var a := s.db.actions[found.value];
      var closed := s.(db := MarkClosed(s.db, found.value, if word == "done" then Done else Failed));
      if word == "done" && a.kind == Install && a.ask.reboot
      then Requested(closed, a.device, Reboot, None, Ask(false, false, Some(s.now + REBOOT_TTL_S)))
      else closed
  }

  // The due list of a device is read under the device's lock, held until its last item is done.
  ghost function Read(s: System, device: nat): System {
    if exists id :: id in s.due && s.due[id].device == device then s
    else s.(due := s.due + (map id | id in s.db.actions && IsDue(s.db.actions[id], device, s.now) :: s.db.actions[id]))
  }

  // The device's row goes and its actions with it; its jobs are dropped in a second step.
  function Deleted(s: System, device: nat): System {
    s.(db := s.db.(actions := map id | id in s.db.actions && s.db.actions[id].device != device :: s.db.actions[id]),
       asked := map id | id in s.asked && !(id in s.db.actions && s.db.actions[id].device == device) :: s.asked[id],
       gone := s.gone + {device})
  }

  // The runner sends an install for a row of the due list, its updates picked as the row asked
  // when the list was read.
  predicate SendsInstall(s: System, id: nat, f: Findings) {
    id in s.due && Decide(s.db.jobs, s.due[id], f, s.now) == Send(J.PatchInstall) && f.sendWorks
  }

  function Picked(s: System, id: nat, f: Findings): map<nat, bool> {
    if SendsInstall(s, id, f) then s.carried[s.db.nextJob := s.due[id].ask.securityOnly] else s.carried
  }

  ghost function Step(s: System, e: Event): System {
    match e
    case Ask_(device, kind, script, ask) => if device in s.gone then s else Requested(s, device, kind, script, ask)
    case Cancel_(id, device) => s.(db := Cancel(s.db, id, device))
    case Expire_ => s.(db := Expire(s.db, s.now))
    case ReadDue(device) => Read(s, device)
    case Item(id, f, reason) =>
      if id in s.due
      then s.(db := RunItem(s.db, id, s.due[id], f, reason, s.now), due := s.due - {id}, carried := Picked(s, id, f))
      else s
    case Abandon(device) => s.(due := map id | id in s.due && s.due[id].device != device :: s.due[id])
    case JobReport(job, event) =>
      s.(db := s.db.(jobs := OnRow(s.db.jobs, job, event)))
    case Result(job, word, exitCode) =>
      Finish(s.(db := s.db.(jobs := OnRow(s.db.jobs, job, J.Finished(J.ReportedStatus(word), exitCode)))), job, word)
    case Sweep(cutoff, patchCutoff) => s.(db := s.db.(jobs := SweptTable(s.db.jobs, cutoff, patchCutoff)))
    case Housekeep(job) =>
      if job in s.db.jobs && J.Terminal(s.db.jobs[job].status) then Finish(s, job, WordOf(s.db.jobs[job].status)) else s
    case Install_(device, works, reason) => s.(db := RequestInstall(s.db, device, works, reason, s.now))
    case OtherJob(device, kind, works, reason) =>
      if kind == J.PatchInstall then s else s.(db := SendJob(s.db, device, kind, works, reason, s.now))
    case DeleteDevice(device) => Deleted(s, device)
    case DropJobs(device) => if device in s.gone then s.(db := s.db.(jobs := WithoutDevice(s.db.jobs, device))) else s
    case Tick(seconds) => s.(now := s.now + seconds)
  }

  // What the pass over a device's due list begins and ends with, and what goes with a device.
  lemma StepsAre(s: System, e: Event)
    ensures var after := Step(s, e);
            (e.ReadDue? || e.Abandon? ==> after.db == s.db && after.asked == s.asked)
            && (e.ReadDue? ==>
                  var held := exists id :: id in s.due && s.due[id].device == e.device;
                  forall id ::
                    var listed := id in s.db.actions && s.db.actions[id].device == e.device && s.db.actions[id].state == Pending
                                  && (s.db.actions[id].ask.expiresAt.None? || s.now < s.db.actions[id].ask.expiresAt.value);
                    && (id in after.due <==> id in s.due || (!held && listed))
                    && (id in after.due ==> after.due[id] == (if !held && listed then s.db.actions[id] else s.due[id])))
            && (e.Abandon? ==>
                  forall id ::
                    && (id in after.due <==> id in s.due && s.due[id].device != e.device)
                    && (id in after.due ==> after.due[id] == s.due[id]))
            && (e.DeleteDevice? ==>
                  && after.due == s.due && after.db.jobs == s.db.jobs && after.gone == s.gone + {e.device}
                  && forall id ::
                       && (id in after.db.actions <==> id in s.db.actions && s.db.actions[id].device != e.device)
                       && (id in after.db.actions ==> after.db.actions[id] == s.db.actions[id]))
            && (e.DropJobs? ==>
                  && after.due == s.due && after.db.actions == s.db.actions
                  && forall job ::
                       && (job in after.db.jobs <==> job in s.db.jobs && !(e.device in s.gone && s.db.jobs[job].device == e.device))
                       && (job in after.db.jobs ==> after.db.jobs[job] == s.db.jobs[job]))
  {
  }

  // What operators, agents and the clock do to the two tables.
  lemma OtherStepsAre(s: System, e: Event)
    requires e.Cancel_? || e.Expire_? || e.Sweep? || e.OtherJob? || e.Install_? || e.JobReport?
    ensures var after, actions, jobs := Step(s, e), s.db.actions, s.db.jobs;
            && after == s.(db := after.db) && after.db.nextAction == s.db.nextAction
            && after.db.actions.Keys == actions.Keys && jobs.Keys <= after.db.jobs.Keys
            && (forall id :: id in actions ==>
                  var withdrawn := e.Cancel_? && id == e.id && actions[id].device == e.device && actions[id].state == Pending;
                  var late := e.Expire_? && actions[id].state == Pending && actions[id].ask.expiresAt.Some?
                              && actions[id].ask.expiresAt.value <= s.now;
                  after.db.actions[id] ==
                    actions[id].(state := if withdrawn then Cancelled else if late then Expired else actions[id].state))
            && (e.Cancel_? || e.Expire_? ==> after.db.jobs == jobs && after.db.nextJob == s.db.nextJob)
            && (e.JobReport? ==>
                  && after.db.jobs.Keys == jobs.Keys && after.db.nextJob == s.db.nextJob
                  && forall job :: job in jobs ==> after.db.jobs[job] == if job == e.job then J.Apply(jobs[job], e.event) else jobs[job])
  {
  }

  ghost function Run(s: System, es: seq<Event>): System
    decreases |es|
  {
    if es == [] then s else Run(Step(s, es[0]), es[1..])
  }

  // ---- the invariant ---------------------------------------------------------------------------

  // An action on a due list has not been sent or finished since: it was pending when read,
  // and only an operator or its expiry can have closed it, if it is there at all.
  ghost predicate DueMatches(s: System) {
    forall id :: id in s.due ==>
      && id < s.db.nextAction
      && (id in s.db.actions ==>
            && s.db.actions[id].state in {Pending, Cancelled, Expired}
            && s.due[id].device == s.db.actions[id].device && s.due[id].kind == s.db.actions[id].kind)
  }

  ghost predicate NoneOfGone(s: System) { forall id :: id in s.db.actions ==> s.db.actions[id].device !in s.gone }

  ghost predicate AskedMatches(s: System) {
    && s.asked.Keys == s.db.actions.Keys
    && forall id :: id in s.db.actions ==> s.asked[id] != [] && s.db.actions[id].ask == Merged(s.asked[id])
  }

  ghost predicate Safe(s: System) { Inv(s.db) && DueMatches(s) && AskedMatches(s) && NoneOfGone(s) }

  lemma FinishIsOnJobFinished(s: System, job: nat, word: string)
    ensures Finish(s, job, word).db == OnJobFinished(s.db, job, word, s.now)
    ensures Finish(s, job, word).due == s.due && Finish(s, job, word).now == s.now && Finish(s, job, word).gone == s.gone
  {
    hide Create, PendingFor, ActionForJob, Noted;
  }

  lemma StepKeepsInv(s: System, e: Event)
    requires Inv(s.db) && DueMatches(s) && NoneOfGone(s)
    ensures Inv(Step(s, e).db)
  {
    hide Inv, Deleted, WithoutDevice, JobResult, NoneOfGone, Create, Cancel, Expire, RunItem, OnJobFinished, SendJob, RequestInstall, OnRow, SweptTable, Finish, InstallRuns, Noted;
    match e
    case Ask_(device, kind, script, ask) => CreateKeeps(s.db, device, kind, script, ask, s.now);
    case Cancel_(id, device) => CancelKeeps(s.db, id, device);
    case Expire_ => ExpireKeeps(s.db, s.now);
    case ReadDue(device) =>
    case Item(id, f, reason) => if id in s.due { RunItemKeeps(s.db, id, s.due[id], f, reason, s.now); }
    case Abandon(device) =>
    case JobReport(job, event) => RowKeeps(s.db, job, event);
    case Result(job, word, exitCode) => {
      JobResultKeeps(s.db, job, word, exitCode, s.now);
      ResultIsJobResult(s, job, word, exitCode);
    }
    case Sweep(cutoff, patchCutoff) => SweepKeeps(s.db, cutoff, patchCutoff);
    case Housekeep(job) =>
      if job in s.db.jobs {
        FinishIsOnJobFinished(s, job, WordOf(s.db.jobs[job].status));
        OnJobFinishedKeeps(s.db, job, WordOf(s.db.jobs[job].status), s.now);
      }
    case Install_(device, works, reason) => RequestInstallKeeps(s.db, device, works, reason, s.now);
    case OtherJob(device, kind, works, reason) =>
      if kind != J.PatchInstall { SendJobKeeps(s.db, device, kind, works, reason, s.now); }
    case DeleteDevice(device) => DeletedKeeps(s, device);
    case DropJobs(device) => if device in s.gone { DropJobsKeeps(s, device); }
    case Tick(seconds) =>
  }

  lemma ResultIsJobResult(s: System, job: nat, word: string, exitCode: Option<int>)
    ensures Step(s, Result(job, word, exitCode)).db == JobResult(s.db, job, word, exitCode, s.now)
  {
    hide Finish, OnJobFinished, OnRow;
    FinishIsOnJobFinished(s.(db := s.db.(jobs := OnRow(s.db.jobs, job, J.Finished(J.ReportedStatus(word), exitCode)))), job, word);
  }

  lemma DeletedKeeps(s: System, device: nat)
    requires Inv(s.db)
    ensures Inv(Deleted(s, device).db)
  {
    hide OneInstall;
  }

  // No action is left that could miss its job.
  lemma DropJobsKeeps(s: System, device: nat)
    requires Inv(s.db) && NoneOfGone(s) && device in s.gone
    ensures Inv(s.db.(jobs := WithoutDevice(s.db.jobs, device)))
  {
    hide OwnJobs, OnePending;
    var after := WithoutDevice(s.db.jobs, device);
    forall i, d | i in after && IsActive(after, i, d, J.PatchInstall)
      ensures i in s.db.jobs && IsActive(s.db.jobs, i, d, J.PatchInstall)
    {
    }
  }

  // ---- what a step does to the rows --------------------------------------------------------------

  function Rank(s: State): nat {
    match s
    case Pending => 0
    case Cancelled => 1
    case Expired => 1
    case Dispatched => 2
    case Done => 3
    case Failed => 3
  }

  // The same action, its state kept or further on.
  ghost predicate Up(a: Action, b: Action) {
    && a.device == b.device && a.kind == b.kind && a.script == b.script && a.createdAt == b.createdAt
    && (a.state == b.state || Rank(a.state) < Rank(b.state))
  }

  // Of a row that is still there.
  ghost predicate AllUp(before: map<nat, Action>, after: map<nat, Action>) {
    forall id :: id in before && id in after ==> Up(before[id], after[id])
  }

  // Only the sent action of this job is touched, but for what is asked of a pending one.
  ghost predicate OnlyOf(job: nat, before: map<nat, Action>, after: map<nat, Action>) {
    forall id :: id in before ==>
      && id in after
      && (before[id].state == Dispatched && before[id].job == Some(job) ==>
            after[id] == before[id].(state := after[id].state) && Rank(after[id].state) == 3)
      && (!(before[id].state == Dispatched && before[id].job == Some(job)) ==> SameButAsk(after[id], before[id]))
  }

  lemma CreateTouches(db: Db, device: nat, kind: Kind, script: Option<nat>, ask: Ask, now: int)
    requires forall id :: id in db.actions ==> id < db.nextAction
    ensures forall id :: id in db.actions ==>
              && id in Create(db, device, kind, script, ask, now).actions
              && SameButAsk(Create(db, device, kind, script, ask, now).actions[id], db.actions[id])
              && (db.actions[id].state != Pending ==> Create(db, device, kind, script, ask, now).actions[id] == db.actions[id])
    ensures db.nextAction <= Create(db, device, kind, script, ask, now).nextAction
    ensures forall id :: id in Create(db, device, kind, script, ask, now).actions && id !in db.actions ==>
              id == db.nextAction && Create(db, device, kind, script, ask, now).actions[id].device == device
  {
  }

  lemma ItemOfNone(db: Db, id: nat, a: Action, f: Findings, reason: Str, now: int)
    ensures RunItem(db, id, a, f, reason, now).nextAction == db.nextAction
    ensures id !in db.actions ==> RunItem(db, id, a, f, reason, now).actions == db.actions
  {
    hide InstallRuns, Decide;
  }

  lemma ItemTouches(db: Db, id: nat, a: Action, f: Findings, reason: Str, now: int)
    requires id in db.actions
    ensures RunItem(db, id, a, f, reason, now).actions.Keys == db.actions.Keys
    ensures forall i :: i in db.actions && i != id ==> RunItem(db, id, a, f, reason, now).actions[i] == db.actions[i]
    ensures RunItem(db, id, a, f, reason, now).actions[id]
         == db.actions[id].(state := RunItem(db, id, a, f, reason, now).actions[id].state, job := RunItem(db, id, a, f, reason, now).actions[id].job)
    ensures RunItem(db, id, a, f, reason, now).actions[id].state in {db.actions[id].state, Dispatched, Done, Failed}
  {
    hide InstallRuns;
  }

  // What a step may do to a row and to the due lists: an operator or the clock closes a pending
  // action, the runner sends or closes one from its list and takes it off, a job's end closes
  // one that was sent; only pending rows come onto a list. A row only goes with its device, and
  // its id with it.
  ghost predicate Moves(s: System, after: System, id: nat)
    requires id in s.db.actions && id in after.db.actions
  {
    var a, b := s.db.actions[id], after.db.actions[id];
    && a.device == b.device && a.kind == b.kind && a.script == b.script && a.createdAt == b.createdAt
    && (|| a.state == b.state
        || (a.state == Pending && b.state in {Cancelled, Expired})
        || (a.state == Dispatched && b.state in {Done, Failed})
        || (id in s.due && id !in after.due && b.state in {Dispatched, Done, Failed}))
  }

  ghost predicate Changes(s: System, after: System) {
    && s.db.nextAction <= after.db.nextAction && s.gone <= after.gone
    && (forall id :: id in s.db.actions && id in after.db.actions ==> Moves(s, after, id))
    && (forall id :: id in s.db.actions && id !in after.db.actions ==> s.db.actions[id].device in after.gone)
    && (forall id :: id in after.db.actions && id !in s.db.actions ==> s.db.nextAction <= id)
    && (forall id :: id in after.due ==>
          || (id in s.due && after.due[id] == s.due[id])
          || (id in s.db.actions && id in after.db.actions && s.db.actions[id].state == Pending && after.due[id] == after.db.actions[id]))
  }

  // Requests, runner items, deletions and the ends of jobs.
  predicate IsMajor(e: Event) { e.Ask_? || e.Item? || e.DeleteDevice? || IsEnd(e) }

  predicate IsEnd(e: Event) { e.Result? || e.Housekeep? }

  lemma MinorChanges(s: System, e: Event)
    requires !IsMajor(e)
    ensures Changes(s, Step(s, e)) && Step(s, e).asked == s.asked && Step(s, e).gone == s.gone
    ensures Step(s, e).db.actions.Keys == s.db.actions.Keys
    ensures forall id :: id in s.db.actions ==> Step(s, e).db.actions[id].ask == s.db.actions[id].ask
    ensures forall id :: id in s.db.actions && s.db.actions[id].state != Pending ==> Step(s, e).db.actions[id] == s.db.actions[id]
    ensures forall id :: id in s.db.actions ==> Step(s, e).db.actions[id].state in {s.db.actions[id].state, Cancelled, Expired}
  {
    hide OnRow, SweptTable, WithoutDevice, InstallRuns, IsActive, NewJob;
  }

  lemma DeletionChanges(s: System, e: Event)
    requires e.DeleteDevice?
    ensures Changes(s, Step(s, e))
    ensures NoneOfGone(s) ==> NoneOfGone(Step(s, e))
    ensures forall id :: id in Step(s, e).db.actions <==> id in s.db.actions && s.db.actions[id].device != e.device
    ensures forall id :: id in Step(s, e).db.actions ==> Step(s, e).db.actions[id] == s.db.actions[id]
  {
  }

  lemma AskChanges(s: System, e: Event)
    requires e.Ask_? && Fresh(s.db)
    ensures Changes(s, Step(s, e)) && s.db.actions.Keys <= Step(s, e).db.actions.Keys
    ensures NoneOfGone(s) ==> NoneOfGone(Step(s, e))
    ensures forall id :: id in s.db.actions ==> Step(s, e).db.actions[id].state == s.db.actions[id].state
  {
    CreateTouches(s.db, e.device, e.kind, e.script, e.ask, s.now);
    hide Create, Noted;
  }

  lemma ItemChanges(s: System, e: Event)
    requires e.Item? && DueMatches(s)
    ensures Changes(s, Step(s, e)) && Step(s, e).asked == s.asked && Step(s, e).gone == s.gone
    ensures Step(s, e).db.actions.Keys == s.db.actions.Keys
    ensures forall id :: id in s.db.actions ==> Step(s, e).db.actions[id].ask == s.db.actions[id].ask
    ensures forall id :: id in s.db.actions && id != e.id ==> Step(s, e).db.actions[id] == s.db.actions[id]
  {
    if e.id in s.due {
      ItemOfNone(s.db, e.id, s.due[e.id], e.findings, e.reason, s.now);
      if e.id in s.db.actions { ItemTouches(s.db, e.id, s.due[e.id], e.findings, e.reason, s.now); }
    }
    hide RunItem;
  }

  // The table the end of a job is looked up in, and the word it ended with.
  ghost function Ended(s: System, e: Event): System
    requires IsEnd(e)
  {
    if e.Result? then s.(db := s.db.(jobs := OnRow(s.db.jobs, e.job, J.Finished(J.ReportedStatus(e.word), e.exitCode)))) else s
  }

  lemma EndIsFinish(s: System, e: Event)
    requires IsEnd(e)
    ensures Ended(s, e).db.actions == s.db.actions && Ended(s, e).db.nextAction == s.db.nextAction
    ensures Ended(s, e) == s.(db := Ended(s, e).db)
    ensures Step(s, e) == s || exists word :: Step(s, e) == Finish(Ended(s, e), e.job, word)
  {
    hide Finish, OnRow, WordOf;
    if e.Result? {
      assert Step(s, e) == Finish(Ended(s, e), e.job, e.word);
    } else if Step(s, e) != s {
      assert Step(s, e) == Finish(Ended(s, e), e.job, WordOf(s.db.jobs[e.job].status));
    }
  }

  lemma EndChanges(s: System, e: Event)
    requires IsEnd(e) && Fresh(s.db) && OwnJobs(s.db.actions)
    ensures Changes(s, Step(s, e)) && Step(s, e).due == s.due && s.db.actions.Keys <= Step(s, e).db.actions.Keys
    ensures NoneOfGone(s) ==> NoneOfGone(Step(s, e))
    ensures forall id :: id in s.db.actions && Closed(s.db.actions[id].state) ==> Step(s, e).db.actions[id].state == s.db.actions[id].state
  {
    EndIsFinish(s, e);
    var ended := Ended(s, e);
    hide Step, Finish, OnJobFinished, Ended, OwnJobs, Changes, OnlyOf, Adds, NoneOfGone;
    if Step(s, e) != s {
      var word :| Step(s, e) == Finish(ended, e.job, word);
      FinishIsOnJobFinished(ended, e.job, word);
      EndTouches(ended.db, e.job, word, s.now);
      EndAdds(ended.db, e.job, word, s.now);
      OnlyOfChanges(s, Step(s, e), e.job);
    } else {
      NoChange(s);
    }
  }

  lemma NoChange(s: System)
    ensures Changes(s, s)
  {
  }

  lemma OnlyOfChanges(s: System, after: System, job: nat)
    requires OnlyOf(job, s.db.actions, after.db.actions) && after.due == s.due && after.gone == s.gone
    requires Adds(s.db, after.db)
    ensures Changes(s, after) && s.db.actions.Keys <= after.db.actions.Keys
    ensures NoneOfGone(s) ==> NoneOfGone(after)
    ensures forall id :: id in s.db.actions && Closed(s.db.actions[id].state) ==> after.db.actions[id].state == s.db.actions[id].state
  {
  }

  // New rows have new ids and belong to devices that have rows already.
  ghost predicate Adds(db: Db, after: Db) {
    && db.nextAction <= after.nextAction
    && forall id :: id in after.actions && id !in db.actions ==>
         db.nextAction <= id && exists o :: o in db.actions && db.actions[o].device == after.actions[id].device
  }

  lemma EndAdds(db: Db, job: nat, word: string, now: int)
    requires forall id :: id in db.actions ==> id < db.nextAction
    ensures Adds(db, OnJobFinished(db, job, word, now))
  {
    var found := ActionForJob(db.actions, job);
    if found.Some? {
      var device := db.actions[found.value].device;
      var closed := MarkClosed(db, found.value, if word == "done" then Done else Failed);
      assert closed.actions.Keys == db.actions.Keys && db.actions[found.value].device == device;
      CreateTouches(closed, device, Reboot, None, Ask(false, false, Some(now + REBOOT_TTL_S)), now);
      hide Create, ActionForJob;
    }
  }

  lemma ClosedTouches(actions: map<nat, Action>, found: nat, job: nat, s: State)
    requires OwnJobs(actions) && found in actions && actions[found].state == Dispatched && actions[found].job == Some(job) && Rank(s) == 3
    ensures OnlyOf(job, actions, actions[found := actions[found].(state := s)])
  {
  }

  lemma MoreTouches(job: nat, before: map<nat, Action>, closed: map<nat, Action>, after: map<nat, Action>)
    requires OnlyOf(job, before, closed)
    requires forall id :: id in closed ==>
               && id in after && SameButAsk(after[id], closed[id])
               && (closed[id].state != Pending ==> after[id] == closed[id])
    ensures OnlyOf(job, before, after)
  {
  }

  lemma EndTouches(db: Db, job: nat, word: string, now: int)
    requires OwnJobs(db.actions) && (forall id :: id in db.actions ==> id < db.nextAction)
    ensures OnlyOf(job, db.actions, OnJobFinished(db, job, word, now).actions)
  {
    hide OwnJobs, OnlyOf, Create, SameButAsk;
    var found := ActionForJob(db.actions, job);
    if found.Some? {
      var a, s := db.actions[found.value], if word == "done" then Done else Failed;
      var closed := MarkClosed(db, found.value, s);
      ClosedTouches(db.actions, found.value, job, s);
      CreateTouches(closed, a.device, Reboot, None, Ask(false, false, Some(now + REBOOT_TTL_S)), now);
      if word == "done" && a.kind == Install && a.ask.reboot {
        MoreTouches(job, db.actions, closed.actions, OnJobFinished(db, job, word, now).actions);
      }
    } else {
      NoneTouched(db.actions, job);
    }
  }

  lemma NoneTouched(actions: map<nat, Action>, job: nat)
    requires forall id :: id in actions && actions[id].state == Dispatched ==> actions[id].job != Some(job)
    ensures OnlyOf(job, actions, actions)
  {
  }

  lemma StepChanges(s: System, e: Event)
    requires Inv(s.db) && DueMatches(s)
    ensures Changes(s, Step(s, e))
  {
    hide Step, Changes, Fresh, OwnJobs, JobsThere, OneInstall, OnePending, DueMatches;
    if !IsMajor(e) {
      MinorChanges(s, e);
    } else if e.Ask_? {
      AskChanges(s, e);
    } else if e.Item? {
      ItemChanges(s, e);
    } else if e.DeleteDevice? {
      DeletionChanges(s, e);
    } else {
      EndChanges(s, e);
    }
  }

  lemma StepKeepsGone(s: System, e: Event)
    requires Inv(s.db) && DueMatches(s) && NoneOfGone(s)
    ensures NoneOfGone(Step(s, e))
  {
    assert Fresh(s.db) && OwnJobs(s.db.actions);
    hide Step, Inv, Fresh, OwnJobs, DueMatches;
    if !IsMajor(e) {
      MinorChanges(s, e);
    } else if e.Ask_? {
      AskChanges(s, e);
    } else if e.Item? {
      ItemChanges(s, e);
    } else if e.DeleteDevice? {
      DeletionChanges(s, e);
    } else {
      EndChanges(s, e);
    }
  }

  // Every state an action has had lies below the one it has.
  lemma StepMovesUp(s: System, e: Event)
    requires Inv(s.db) && DueMatches(s)
    ensures AllUp(s.db.actions, Step(s, e).db.actions)
  {
    StepChanges(s, e);
    hide Step, Inv;
  }

  lemma StepKeepsDue(s: System, e: Event)
    requires Inv(s.db) && DueMatches(s)
    ensures DueMatches(Step(s, e))
  {
    StepChanges(s, e);
    assert Fresh(s.db);
    hide Step, Inv;
  }

  lemma RequestedKeepsAsked(s: System, device: nat, kind: Kind, script: Option<nat>, ask: Ask)
    requires Fresh(s.db) && AskedMatches(s)
    ensures AskedMatches(Requested(s, device, kind, script, ask))
  {
    var found := PendingFor(s.db.actions, KeyFor(device, kind, script));
    if found.Some? {
      var asks := s.asked[found.value];
      assert (asks + [ask])[..|asks|] == asks;
    }
    hide KeyFor, PendingFor;
  }

  lemma ClosingKeepsAsked(s: System, id: nat, state: State)
    requires Fresh(s.db) && AskedMatches(s)
    ensures Fresh(MarkClosed(s.db, id, state)) && AskedMatches(s.(db := MarkClosed(s.db, id, state)))
  {
    hide Merged;
    assert MarkClosed(s.db, id, state).actions.Keys == s.db.actions.Keys;
  }

  lemma FinishKeepsAsked(s: System, job: nat, word: string)
    requires Fresh(s.db) && AskedMatches(s)
    ensures AskedMatches(Finish(s, job, word))
  {
    hide Requested, ActionForJob, AskedMatches, MarkClosed, Fresh;
    var found := ActionForJob(s.db.actions, job);
    if found.Some? {
      var state := if word == "done" then Done else Failed;
      ClosingKeepsAsked(s, found.value, state);
      RequestedKeepsAsked(s.(db := MarkClosed(s.db, found.value, state)), s.db.actions[found.value].device, Reboot, None,
        Ask(false, false, Some(s.now + REBOOT_TTL_S)));
    }
  }

  lemma StepKeepsAsked(s: System, e: Event)
    requires Safe(s)
    ensures AskedMatches(Step(s, e))
  {
    assert Fresh(s.db);
    if e.Ask_? {
      RequestedKeepsAsked(s, e.device, e.kind, e.script, e.ask);
      hide Requested, AskedMatches, Inv, Fresh;
    } else if e.DeleteDevice? {
      hide Inv, Fresh, Merged;
    } else if IsEnd(e) {
      EndIsFinish(s, e);
      var ended := Ended(s, e);
      assert AskedMatches(ended);
      if Step(s, e) != s {
        var word :| Step(s, e) == Finish(ended, e.job, word);
        RowIsFresh(s, e);
        FinishKeepsAsked(ended, e.job, word);
      }
      hide Step, Finish, AskedMatches, Inv;
    } else {
      if e.Item? { ItemChanges(s, e); } else { MinorChanges(s, e); }
      hide Step, Inv, Changes, Merged;
    }
  }

  lemma RowIsFresh(s: System, e: Event)
    requires IsEnd(e) && Fresh(s.db)
    ensures Fresh(Ended(s, e).db)
  {
  }

  // ---- over every run -----------------------------------------------------------------------------

  const EMPTY: System := System(Db(map[], 1, map[], 1), map[], map[], map[], {}, 0)

  lemma EmptyIsSafe()
    ensures Safe(EMPTY)
  {
  }

  lemma StepIsSafe(s: System, e: Event)
    requires Safe(s)
    ensures Safe(Step(s, e))
  {
    StepKeepsInv(s, e);
    StepKeepsDue(s, e);
    StepKeepsAsked(s, e);
    StepKeepsGone(s, e);
    hide Inv, DueMatches, AskedMatches, NoneOfGone, Step;
  }

  // No two actions share a job, sent actions have theirs on their own device, one install
  // runs on a device, one action is pending for a key, and every row asks for exactly what
  // was asked of it.
  lemma {:induction false} EveryRunIsSafe(s: System, es: seq<Event>)
    requires Safe(s)
    ensures Safe(Run(s, es))
    decreases |es|
  {
    if es != [] {
      StepIsSafe(s, es[0]);
      EveryRunIsSafe(Step(s, es[0]), es[1..]);
    }
  }

  // How often a run takes this action into a state of this rank.
  ghost function Entries(s: System, es: seq<Event>, id: nat, k: nat): nat
    decreases |es|
  {
    if es == [] then 0
    else
      var next := Step(s, es[0]);
      (if id in s.db.actions && id in next.db.actions && Rank(s.db.actions[id].state) != k && Rank(next.db.actions[id].state) == k
       then 1 else 0) + Entries(next, es[1..], id, k)
  }

  // At most once sent and at most once finished, whatever is reported twice, late or never:
  // and exactly once if that is where the action ends.
  lemma {:induction false} EnteredAtMostOnce(s: System, es: seq<Event>, id: nat, k: nat)
    requires Safe(s) && id in s.db.actions
    ensures Entries(s, es, id, k) <= if Rank(s.db.actions[id].state) < k then 1 else 0
    ensures id in Run(s, es).db.actions && Rank(s.db.actions[id].state) != k && Rank(Run(s, es).db.actions[id].state) == k ==>
              Entries(s, es, id, k) == 1
    decreases |es|
  {
    if es != [] {
      StepMovesUp(s, es[0]);
      StepIsSafe(s, es[0]);
      StepChanges(s, es[0]);
      assert id < s.db.nextAction;
      hide Safe, Step;
      if id in Step(s, es[0]).db.actions {
        EnteredAtMostOnce(Step(s, es[0]), es[1..], id, k);
      } else {
        NeverBack(Step(s, es[0]), es[1..], id, k);
      }
    }
  }

  // An action that went with its device does not come back.
  lemma {:induction false} NeverBack(s: System, es: seq<Event>, id: nat, k: nat)
    requires Safe(s) && id !in s.db.actions && id < s.db.nextAction
    ensures Entries(s, es, id, k) == 0 && id !in Run(s, es).db.actions
    decreases |es|
  {
    if es != [] {
      StepIsSafe(s, es[0]);
      StepChanges(s, es[0]);
      hide Safe, Step;
      NeverBack(Step(s, es[0]), es[1..], id, k);
    }
  }
}
