// Queued actions over the job table: what each storage function and each step of the
// runner does.
module Actions {
  import opened Text
  import opened Wrappers
  import opened JobsTable
  import J = Jobs

  datatype Kind = Install | RunScript | Reboot
  datatype State = Pending | Dispatched | Done | Failed | Expired | Cancelled

  datatype Action = Action(device: nat, kind: Kind, script: Option<nat>, ask: Ask, createdAt: int, state: State, job: Option<nat>)

  // What is asked for, and what merging widens.
  datatype Ask = Ask(securityOnly: bool, reboot: bool, expiresAt: Option<int>)

  // One open action per device and kind, and per script for scripts.
  datatype Key = Key(device: nat, kind: Kind, script: nat)

  datatype Db = Db(actions: map<nat, Action>, nextAction: nat, jobs: J.Table, nextJob: nat)

  const REBOOT_DECISION_S: int := 15 * 60
  const REBOOT_TTL_S: int := 24 * 3600

  predicate Closed(s: State) { s !in {Pending, Dispatched} }

  function KeyOf(a: Action): Key { KeyFor(a.device, a.kind, a.script) }

  function KeyFor(device: nat, kind: Kind, script: Option<nat>): Key {
    Key(device, kind, if script.Some? then script.value else 0)
  }

  // All updates beat security only, a reboot request sticks, the later expiry wins and no
  // expiry beats them all.
  function Widen(a: Ask, b: Ask): Ask {
    Ask(a.securityOnly && b.securityOnly, a.reboot || b.reboot,
        if a.expiresAt.None? || b.expiresAt.None? then None
        else Some(if a.expiresAt.value < b.expiresAt.value then b.expiresAt.value else a.expiresAt.value))
  }

  // ---- storage functions ----------------------------------------------------------------------

  ghost function PendingFor(actions: map<nat, Action>, key: Key): (r: Option<nat>)
    ensures r.Some? ==> r.value in actions && actions[r.value].state == Pending && KeyOf(actions[r.value]) == key
    ensures r.None? ==> forall id :: id in actions && actions[id].state == Pending ==> KeyOf(actions[id]) != key
  {
    if exists id :: id in actions && actions[id].state == Pending && KeyOf(actions[id]) == key then
      var id :| id in actions && actions[id].state == Pending && KeyOf(actions[id]) == key; Some(id)
    else None
  }

  ghost function Create(db: Db, device: nat, kind: Kind, script: Option<nat>, ask: Ask, now: int): Db {
    match PendingFor(db.actions, KeyFor(device, kind, script))
    case Some(id) => db.(actions := db.actions[id := db.actions[id].(ask := Widen(db.actions[id].ask, ask))])
    case None =>
      db.(actions := db.actions[db.nextAction := Action(device, kind, script, ask, now, Pending, None)],
          nextAction := db.nextAction + 1)
  }

  function Cancel(db: Db, id: nat, device: nat): Db {
    if id in db.actions && db.actions[id].device == device && db.actions[id].state == Pending
    then db.(actions := db.actions[id := db.actions[id].(state := Cancelled)])
    else db
  }

  predicate IsDue(a: Action, device: nat, now: int) {
    a.device == device && a.state == Pending && (a.ask.expiresAt.None? || a.ask.expiresAt.value > now)
  }

  function ExpireRow(a: Action, now: int): Action {
    if a.state == Pending && a.ask.expiresAt.Some? && a.ask.expiresAt.value <= now then a.(state := Expired) else a
  }

  function Expire(db: Db, now: int): Db {
    db.(actions := map id | id in db.actions :: ExpireRow(db.actions[id], now))
  }

  // Neither of these looks at the state the action is in.
  function MarkDispatched(db: Db, id: nat, job: nat): Db {
    if id in db.actions then db.(actions := db.actions[id := db.actions[id].(state := Dispatched, job := Some(job))]) else db
  }

  function MarkClosed(db: Db, id: nat, s: State): Db {
    if id in db.actions then db.(actions := db.actions[id := db.actions[id].(state := s)]) else db
  }

  ghost function ActionForJob(actions: map<nat, Action>, job: nat): (r: Option<nat>)
    ensures r.Some? ==> r.value in actions && actions[r.value].state == Dispatched && actions[r.value].job == Some(job)
    ensures r.None? ==> forall id :: id in actions && actions[id].state == Dispatched ==> actions[id].job != Some(job)
  {
    if exists id :: id in actions && actions[id].state == Dispatched && actions[id].job == Some(job) then
      var id :| id in actions && actions[id].state == Dispatched && actions[id].job == Some(job); Some(id)
    else None
  }

  // ---- the runner -----------------------------------------------------------------------------

  // What the runner finds when it gets to an action: none of it is in these two tables.
  datatype Findings = Findings(
    hasAgent: bool, awaitingReport: bool, nothingToInstall: bool, scriptGone: bool, scriptFits: bool,
    rebootRequired: Option<Option<bool>>, restartKnown: bool, sendWorks: bool)

  predicate InstallRuns(jobs: J.Table, device: nat) { exists j :: j in jobs && IsActive(jobs, j, device, J.PatchInstall) }

  // A job for the device; sending it can fail, and then the job does.
  function SendJob(db: Db, device: nat, kind: J.Kind, works: bool, reason: Str, now: int): Db {
    var jobs := db.jobs[db.nextJob := NewJob(device, kind, now)];
    db.(jobs := if works then jobs else OnRow(jobs, db.nextJob, J.Undispatched(reason)), nextJob := db.nextJob + 1)
  }

  datatype Decision = Leave | Close(s: State) | Send(kind: J.Kind)

  function Decide(jobs: J.Table, a: Action, f: Findings, now: int): Decision {
    if !f.hasAgent then Close(Failed)
    else match a.kind
      case Install =>
        if InstallRuns(jobs, a.device) || f.awaitingReport then Leave
        else if f.nothingToInstall then Close(Done)
        else Send(J.PatchInstall)
      case RunScript =>
        if f.scriptGone || !f.scriptFits then Close(Failed) else Send(J.Script)
      case Reboot =>
        if f.rebootRequired.None? || InstallRuns(jobs, a.device) then Leave
        else if f.rebootRequired.value != Some(true) then
          if now - a.createdAt >= REBOOT_DECISION_S then Close(Done) else Leave
        else if !f.restartKnown then Close(Failed)
        else Send(J.Shell)
  }

  // One action of a due list. `a` is the row as it was when the list was read.
  function RunItem(db: Db, id: nat, a: Action, f: Findings, reason: Str, now: int): Db {
    match Decide(db.jobs, a, f, now)
    case Leave => db
    case Close(s) => MarkClosed(db, id, s)
    case Send(kind) =>
      var sent := SendJob(db, a.device, kind, f.sendWorks, reason, now);
      if f.sendWorks then MarkDispatched(sent, id, db.nextJob) else sent
  }

  ghost function OnJobFinished(db: Db, job: nat, word: string, now: int): Db {
    match ActionForJob(db.actions, job)
    case None => db
    case Some(id) =>
      var a := db.actions[id];
      var closed := MarkClosed(db, id, if word == "done" then Done else Failed);
      if word == "done" && a.kind == Install && a.ask.reboot
      then Create(closed, a.device, Reboot, None, Ask(false, false, Some(now + REBOOT_TTL_S)), now)
      else closed
  }

  function WordOf(s: J.Status): string {
    match s
    case Done => "done"
    case Timeout => "timeout"
    case Queued => "queued"
    case Running => "running"
    case Failed => "failed"
  }

  // A dispatched action whose job is over.
  predicate IsOver(db: Db, id: nat) {
    && id in db.actions && db.actions[id].state == Dispatched && db.actions[id].job.Some?
    && db.actions[id].job.value in db.jobs && J.Terminal(db.jobs[db.actions[id].job.value].status)
  }

  // The jobs of dispatched actions, those that were over when the list was read, one by one.
  ghost function CloseOver(db: Db, jobs: seq<nat>, now: int): Db
    decreases |jobs|
  {
    if jobs == [] then db
    else if jobs[0] in db.jobs
    then CloseOver(OnJobFinished(db, jobs[0], WordOf(db.jobs[jobs[0]].status), now), jobs[1..], now)
    else CloseOver(db, jobs[1..], now)
  }

  // ---- what else changes jobs -------------------------------------------------------------------

  // The install endpoint: refused while an install is queued or running.
  function RequestInstall(db: Db, device: nat, works: bool, reason: Str, now: int): Db {
    if InstallRuns(db.jobs, device) then db else SendJob(db, device, J.PatchInstall, works, reason, now)
  }

  // Its second half on its own, after the check.
  function CreateInstall(db: Db, device: nat, works: bool, reason: Str, now: int): Db {
    SendJob(db, device, J.PatchInstall, works, reason, now)
  }

  ghost function JobResult(db: Db, job: nat, word: string, exitCode: Option<int>, now: int): Db {
    OnJobFinished(db.(jobs := OnRow(db.jobs, job, J.Finished(J.ReportedStatus(word), exitCode))), job, word, now)
  }
}
