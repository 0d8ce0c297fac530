// Apple MDM enrollment: the two tables and what each handler does to them.
module Mdm {
  import opened Wrappers

  // Seconds; the clock never shows zero.
  type Time = t: int | t > 0 witness 1

  // Links, refs and challenges are random and never repeat; a hash stands for what it
  // was taken of. A common name is the ref it names.
  type Token = nat

  datatype Enrollment = Enrollment(
    device: nat, ref: Token, link: Token, challenge: Option<Token>, expiresAt: int, downloads: nat,
    downloadedAt: Option<Time>, scepAt: Option<Time>, enrolledAt: Option<Time>, revokedAt: Option<Time>, udid: string)

  datatype Binding = Binding(
    udid: string, enrollment: nat, enrolledAt: Time, lastSeenAt: Time, checkedOutAt: Option<Time>, issuedAt: Option<Time>,
    renewChallenge: Option<Token>, renewStartedAt: Option<Time>, renewScepAt: Option<Time>, renewDoneAt: Option<Time>,
    renewCommand: string)

  datatype Tables = Tables(es: map<nat, Enrollment>, bs: map<nat, Binding>, nextId: nat, nextToken: Token)

  const MAX_DOWNLOADS: nat := 5
  const RENEW_CHALLENGE_TTL_S: int := 7 * 86400

  predicate IsOpen(e: Enrollment) { e.revokedAt.None? && e.enrolledAt.None? }

  // ---- the word for the dashboard ---------------------------------------------------------

  datatype State = Waiting | Downloaded | Expired | Certificate | Enrolled | Revoked

  function EnrollmentState(e: Enrollment, now: Time): State {
    if e.revokedAt.Some? then Revoked
    else if e.enrolledAt.Some? then Enrolled
    else if e.scepAt.Some? then Certificate
    else if now >= e.expiresAt then Expired
    else if e.downloadedAt.Some? then Downloaded
    else Waiting
  }

  function Rank(s: State): nat {
    match s
    case Waiting => 0
    case Downloaded => 1
    case Expired => 2
    case Certificate => 3
    case Enrolled => 4
    case Revoked => 5
  }

  // ---- lookups by a unique column -------------------------------------------------------------

  ghost function ByRef(es: map<nat, Enrollment>, ref: Token): (r: Option<nat>)
    ensures r.Some? ==> r.value in es && es[r.value].ref == ref
    ensures r.None? ==> forall id :: id in es ==> es[id].ref != ref
  {
    if exists id :: id in es && es[id].ref == ref then var id :| id in es && es[id].ref == ref; Some(id) else None
  }

  ghost function ByLink(es: map<nat, Enrollment>, link: Token): (r: Option<nat>)
    ensures r.Some? ==> r.value in es && es[r.value].link == link
    ensures r.None? ==> forall id :: id in es ==> es[id].link != link
  {
    if exists id :: id in es && es[id].link == link then var id :| id in es && es[id].link == link; Some(id) else None
  }

  ghost function ByChallenge(es: map<nat, Enrollment>, c: Token): (r: Option<nat>)
    ensures r.Some? ==> r.value in es && es[r.value].challenge == Some(c)
    ensures r.None? ==> forall id :: id in es ==> es[id].challenge != Some(c)
  {
    if exists id :: id in es && es[id].challenge == Some(c) then
      var id :| id in es && es[id].challenge == Some(c); Some(id)
    else None
  }

  ghost function ByRenewal(bs: map<nat, Binding>, c: Token): (r: Option<nat>)
    ensures r.Some? ==> r.value in bs && bs[r.value].renewChallenge == Some(c)
    ensures r.None? ==> forall d :: d in bs ==> bs[d].renewChallenge != Some(c)
  {
    if exists d :: d in bs && bs[d].renewChallenge == Some(c) then
      var d :| d in bs && bs[d].renewChallenge == Some(c); Some(d)
    else None
  }

  ghost function ByUdid(bs: map<nat, Binding>, udid: string): (r: Option<nat>)
    ensures r.Some? ==> r.value in bs && bs[r.value].udid == udid
    ensures r.None? ==> forall d :: d in bs ==> bs[d].udid != udid
  {
    if exists d :: d in bs && bs[d].udid == udid then var d :| d in bs && bs[d].udid == udid; Some(d) else None
  }

  // ---- links and downloads -------------------------------------------------------------------

  function RevokeIfOpen(e: Enrollment, device: nat, now: Time): Enrollment {
    if e.device == device && IsOpen(e) then e.(revokedAt := Some(now)) else e
  }

  function RevokeOpen(es: map<nat, Enrollment>, device: nat, now: Time): map<nat, Enrollment> {
    map id | id in es :: RevokeIfOpen(es[id], device, now)
  }

  function NewEnrollment(device: nat, ref: Token, link: Token, expiresAt: int): Enrollment {
    Enrollment(device, ref, link, None, expiresAt, 0, None, None, None, None, "")
  }

  function Create(t: Tables, device: nat, ttlHours: int, now: Time): Tables {
    t.(es := RevokeOpen(t.es, device, now)[t.nextId := NewEnrollment(device, t.nextToken, t.nextToken + 1, now + ttlHours * 3600)],
       nextId := t.nextId + 1, nextToken := t.nextToken + 2)
  }

  function Revoke(t: Tables, device: nat, now: Time): Tables { t.(es := RevokeOpen(t.es, device, now)) }

  predicate MayDownload(e: Enrollment, now: Time) {
    IsOpen(e) && e.scepAt.None? && e.expiresAt > now && e.downloads < MAX_DOWNLOADS
  }

  ghost function Download(t: Tables, link: Token, now: Time): Tables {
    match ByLink(t.es, link)
    case Some(id) =>
      if MayDownload(t.es[id], now) then
        var e := t.es[id];
        t.(es := t.es[id := e.(challenge := Some(t.nextToken), downloads := e.downloads + 1, downloadedAt := Some(now))],
           nextToken := t.nextToken + 1)
      else t
    case None => t
  }

  // ---- SCEP: a read, then a guarded update ---------------------------------------------------

  datatype Outcome = Ok | Unknown | CnMismatch

  // A request between its database accesses. `named` says that the CSR names the enrollment.
  datatype Flight =
    | AtEnrollment(id: nat, named: bool, now: Time)
    | AtLookup(challenge: Token, cn: Token, now: Time)
    | AtRenewal(device: nat, challenge: Token, named: bool, now: Time)

  datatype Progress = Going(flight: Flight) | Over(outcome: Outcome)

  ghost function ScepRead(t: Tables, challenge: Token, cn: Token, now: Time): Progress {
    match ByChallenge(t.es, challenge)
    case None => Going(AtLookup(challenge, cn, now))
    case Some(id) =>
      var e := t.es[id];
      if !IsOpen(e) || e.scepAt.Some? || e.expiresAt <= now then Over(Unknown)
      else Going(AtEnrollment(id, cn == e.ref, now))
  }

  function ScepAtEnrollment(t: Tables, id: nat, named: bool, now: Time): (Tables, Outcome) {
    if id !in t.es then (t, if named then Unknown else CnMismatch)
    else if !named then
      (if t.es[id].revokedAt.None? then t.(es := t.es[id := t.es[id].(revokedAt := Some(now))]) else t, CnMismatch)
    else if t.es[id].scepAt.None? && IsOpen(t.es[id]) then
      (t.(es := t.es[id := t.es[id].(scepAt := Some(now))]), Ok)
    else (t, Unknown)
  }

  ghost function ScepLookup(t: Tables, challenge: Token, cn: Token, now: Time): Progress {
    match ByRenewal(t.bs, challenge)
    case None => Over(Unknown)
    case Some(d) =>
      var b := t.bs[d];
      if b.enrollment !in t.es || b.renewScepAt.Some? || b.renewStartedAt.None?
         || b.renewStartedAt.value + RENEW_CHALLENGE_TTL_S <= now then Over(Unknown)
      else Going(AtRenewal(d, challenge, cn == t.es[b.enrollment].ref, now))
  }

  function ScepAtRenewal(t: Tables, d: nat, challenge: Token, named: bool, now: Time): (Tables, Outcome) {
    if d !in t.bs then (t, if named then Unknown else CnMismatch)
    else if !named then (t.(bs := t.bs[d := t.bs[d].(renewChallenge := None)]), CnMismatch)
    else if t.bs[d].renewScepAt.None? && t.bs[d].renewChallenge == Some(challenge) then
      (t.(bs := t.bs[d := t.bs[d].(renewScepAt := Some(now))]), Ok)
    else (t, Unknown)
  }

  // One database access of a request in flight.
  ghost function ScepAdvance(t: Tables, f: Flight): (Tables, Progress) {
    match f
    case AtEnrollment(id, named, now) => var r := ScepAtEnrollment(t, id, named, now); (r.0, Over(r.1))
    case AtLookup(challenge, cn, now) => (t, ScepLookup(t, challenge, cn, now))
    case AtRenewal(d, challenge, named, now) => var r := ScepAtRenewal(t, d, challenge, named, now); (r.0, Over(r.1))
  }

  // The handler with nothing in between.
  ghost function VerifyScep(t: Tables, challenge: Token, cn: Token, now: Time): (Tables, Outcome) {
    match ScepRead(t, challenge, cn, now)
    case Over(outcome) => (t, outcome)
    case Going(AtEnrollment(id, named, _)) => ScepAtEnrollment(t, id, named, now)
    case Going(_) =>
      match ScepLookup(t, challenge, cn, now)
      case Going(AtRenewal(d, _, named, _)) => ScepAtRenewal(t, d, challenge, named, now)
      case _ => (t, Unknown)
  }

  // ---- renewal ---------------------------------------------------------------------------------

  function StartRenewal(t: Tables, d: nat, now: Time): Tables {
    if d in t.bs && t.bs[d].enrollment in t.es && t.bs[d].checkedOutAt.None? then
      t.(bs := t.bs[d := t.bs[d].(renewChallenge := Some(t.nextToken), renewStartedAt := Some(now), renewScepAt := None,
                                  renewDoneAt := None, renewCommand := "")],
         nextToken := t.nextToken + 1)
    else t
  }

  function SetRenewalCommand(t: Tables, d: nat, command: string): Tables {
    if d in t.bs then t.(bs := t.bs[d := t.bs[d].(renewCommand := command)]) else t
  }

  function FinishRenewal(t: Tables, d: nat, command: string, ok: bool, now: Time): Tables {
    if d in t.bs && t.bs[d].renewCommand == command then
      var b := t.bs[d].(renewChallenge := None);
      t.(bs := t.bs[d := if ok then b.(renewDoneAt := Some(now), issuedAt := Some(if b.renewScepAt.Some? then b.renewScepAt.value else now))
                         else b])
    else t
  }

  // ---- device check-in ---------------------------------------------------------------------------

  ghost function Bindable(es: map<nat, Enrollment>, ref: Token): (r: Option<nat>)
    ensures r.Some? ==> r.value in es && es[r.value].ref == ref && es[r.value].revokedAt.None? && es[r.value].scepAt.Some?
  {
    match ByRef(es, ref)
    case Some(id) => if es[id].revokedAt.None? && es[id].scepAt.Some? then Some(id) else None
    case None => None
  }

  predicate CarriesOther(e: Enrollment, udid: string) { e.udid != "" && e.udid != udid }

  ghost function Authenticate(t: Tables, udid: string, ref: Token): Tables {
    match Bindable(t.es, ref)
    case Some(id) => if CarriesOther(t.es[id], udid) then t else t.(es := t.es[id := t.es[id].(udid := udid)])
    case None => t
  }

  function Unbound(bs: map<nat, Binding>, udid: string, device: nat): map<nat, Binding> {
    map d | d in bs && (bs[d].udid != udid || d == device) :: bs[d]
  }

  function Bound(bs: map<nat, Binding>, device: nat, udid: string, id: nat, now: Time): map<nat, Binding> {
    bs[device :=
      if device in bs then
        bs[device].(udid := udid, enrollment := id, lastSeenAt := now, checkedOutAt := None,
                    enrolledAt := if bs[device].enrollment == id then bs[device].enrolledAt else now)
      else Binding(udid, id, now, now, None, None, None, None, None, None, "")]
  }

  ghost function TokenUpdate(t: Tables, udid: string, ref: Token, now: Time): Tables {
    match Bindable(t.es, ref)
    case None =>
      (match ByUdid(t.bs, udid)
       case Some(d) => t.(bs := t.bs[d := t.bs[d].(lastSeenAt := now)])
       case None => t)
    case Some(id) =>
      var e := t.es[id];
      if CarriesOther(e, udid) then t
      else
        t.(bs := Bound(Unbound(t.bs, udid, e.device), e.device, udid, id, now),
           es := t.es[id := e.(udid := udid, enrolledAt := if e.enrolledAt.Some? then e.enrolledAt else Some(now))])
  }

  ghost function CheckOut(t: Tables, udid: string, now: Time): Tables {
    match ByUdid(t.bs, udid)
    case Some(d) => t.(bs := t.bs[d := t.bs[d].(checkedOutAt := Some(now), lastSeenAt := now)])
    case None => t
  }

  // A deleted device takes its rows in both tables with it.
  function DeleteDevice(t: Tables, device: nat): Tables {
    t.(es := map id | id in t.es && t.es[id].device != device :: t.es[id], bs := t.bs - {device})
  }
}
