// Whole runs: the invariant with one handler at a time, and what is left of it when the
// database accesses of concurrent SCEP requests interleave.
module MdmRuns {
  import opened Wrappers
  import opened Mdm
  import opened MdmInvariant

  datatype Event =
    | ECreate(device: nat, ttlHours: int)
    | ERevoke(device: nat)
    | EDownload(link: Token)
    | EStartRenewal(d: nat)
    | ESetCommand(d: nat, command: string)
    | EFinish(d: nat, command: string, ok: bool)
    | EAuthenticate(udid: string, ref: Token)
    | ETokenUpdate(udid: string, ref: Token)
    | ECheckOut(udid: string)
    | EDelete(device: nat)

  // An event without a UDID is ignored.
  ghost function Apply(t: Tables, e: Event, now: Time): Tables {
    match e
    case ECreate(device, ttlHours) => Create(t, device, ttlHours, now)
    case ERevoke(device) => Revoke(t, device, now)
    case EDownload(link) => Download(t, link, now)
    case EStartRenewal(d) => StartRenewal(t, d, now)
    case ESetCommand(d, command) => SetRenewalCommand(t, d, command)
    case EFinish(d, command, ok) => FinishRenewal(t, d, command, ok, now)
    case EAuthenticate(udid, ref) => if udid == "" then t else Authenticate(t, udid, ref)
    case ETokenUpdate(udid, ref) => if udid == "" then t else TokenUpdate(t, udid, ref, now)
    case ECheckOut(udid) => if udid == "" then t else CheckOut(t, udid, now)
    case EDelete(device) => DeleteDevice(t, device)
  }

  lemma ApplyKeeps(t: Tables, e: Event, now: Time)
    requires Inv(t)
    ensures Inv(Apply(t, e, now))
  {
    hide Inv;
    match e
    case ECreate(device, ttlHours) => CreateKeeps(t, device, ttlHours, now);
    case ERevoke(device) => RevokeKeeps(t, device, now);
    case EDownload(link) => DownloadKeeps(t, link, now);
    case EStartRenewal(d) => StartRenewalKeeps(t, d, now);
    case ESetCommand(d, command) => SetCommandKeeps(t, d, command);
    case EFinish(d, command, ok) => FinishRenewalKeeps(t, d, command, ok, now);
    case EAuthenticate(udid, ref) => if udid != "" { AuthenticateKeeps(t, udid, ref); }
    case ETokenUpdate(udid, ref) => if udid != "" { TokenUpdateKeeps(t, udid, ref, now); }
    case ECheckOut(udid) => CheckOutKeeps(t, udid, now);
    case EDelete(device) => DeleteDeviceKeeps(t, device);
  }

  // ---- one handler at a time -------------------------------------------------------------

  datatype Handler = Plain(e: Event) | Scep(challenge: Token, cn: Token)

  ghost function Handle(t: Tables, h: Handler, now: Time): Tables {
    match h
    case Plain(e) => Apply(t, e, now)
    case Scep(challenge, cn) => VerifyScep(t, challenge, cn, now).0
  }

  datatype Call = Call(h: Handler, now: Time)

  ghost function RunAll(t: Tables, calls: seq<Call>): Tables
    decreases |calls|
  {
    if calls == [] then t else RunAll(Handle(t, calls[0].h, calls[0].now), calls[1..])
  }

  const EMPTY: Tables := Tables(map[], map[], 0, 0)

  // Every reachable state: UDIDs and devices are in bijection, every binding rests on an
  // enrolled, certified, never revoked enrollment of its own device and UDID, and no
  // device has two open links.
  lemma {:induction false} InvariantOverRuns(t: Tables, calls: seq<Call>)
    requires Inv(t)
    ensures Inv(RunAll(t, calls))
    decreases |calls|
  {
    hide Inv;
    if calls != [] {
      var h, now := calls[0].h, calls[0].now;
      match h {
        case Plain(e) => ApplyKeeps(t, e, now);
        case Scep(challenge, cn) => VerifyScepKeeps(t, challenge, cn, now);
      }
      InvariantOverRuns(Handle(t, h, now), calls[1..]);
    }
  }

  lemma EmptyIsInvariant()
    ensures Inv(EMPTY)
  {
  }

  // ---- interleaved requests ----------------------------------------------------------------

  // `accepted` counts the challenges accepted per enrollment, `renewed` per renewal
  // challenge; `latest` is the newest renewal challenge of each device.
  datatype System = System(t: Tables, flights: map<nat, Flight>, accepted: multiset<nat>, renewed: multiset<Token>, latest: map<nat, Token>)

  datatype Move = Other(e: Event) | Request(k: nat, challenge: Token, cn: Token) | Continue(k: nat)

  ghost function Land(s: System, k: nat, t: Tables, p: Progress): System {
    match p
    case Going(f) => s.(t := t, flights := s.flights[k := f])
    case Over(outcome) =>
      var done := s.(t := t, flights := s.flights - {k});
      if outcome != Ok || k !in s.flights then done
      else match s.flights[k]
        case AtEnrollment(id, _, _) => done.(accepted := s.accepted[id := s.accepted[id] + 1])
        case AtRenewal(_, c, _, _) => done.(renewed := s.renewed[c := s.renewed[c] + 1])
        case AtLookup(_, _, _) => done
  }

  ghost function Next(s: System, m: Move, now: Time): System {
    match m
    case Other(e) =>
      var t := Apply(s.t, e, now);
      var latest := if e.EStartRenewal? && t != s.t then s.latest[e.d := s.t.nextToken] else s.latest;
      s.(t := t, latest := latest)
    case Request(k, challenge, cn) => Land(s.(flights := s.flights - {k}), k, s.t, ScepRead(s.t, challenge, cn, now))
    case Continue(k) =>
      if k in s.flights then
        var r := ScepAdvance(s.t, s.flights[k]);
        Land(s, k, r.0, r.1)
      else s
  }

  // What a step other than SCEP may do to certificates and renewal challenges.
  ghost predicate Shape(t: Tables, t': Tables, e: Event) {
    && t'.nextId >= t.nextId && t'.nextToken >= t.nextToken
    && (forall id :: id in t'.es ==>
          || (id in t.es && t'.es[id].scepAt == t.es[id].scepAt)
          || (t.nextId <= id < t'.nextId && t'.es[id].scepAt.None?))
    && (forall id :: id in t'.es ==> t'.es[id].downloads <= MAX_DOWNLOADS)
    && (forall d :: d in t'.bs && t'.bs[d].renewChallenge.Some? ==>
          || (d in t.bs && t'.bs[d].renewChallenge == t.bs[d].renewChallenge && t'.bs[d].renewScepAt == t.bs[d].renewScepAt)
          || (e == EStartRenewal(d) && t'.bs[d].renewChallenge == Some(t.nextToken) && t'.nextToken > t.nextToken))
  }

  ghost predicate Bounded(t: Tables) { forall id :: id in t.es ==> t.es[id].downloads <= MAX_DOWNLOADS }

  lemma ApplyShape(t: Tables, e: Event, now: Time)
    requires Bounded(t)
    ensures Shape(t, Apply(t, e, now), e)
  {
    hide Shape, Bounded, Create, Revoke, Download, StartRenewal, SetRenewalCommand, FinishRenewal, Authenticate, TokenUpdate, CheckOut, DeleteDevice;
    NothingShape(t, e);
    match e
    case ECreate(device, ttlHours) => CreateShape(t, e, device, ttlHours, now);
    case ERevoke(device) => RevokeShape(t, e, device, now);
    case EDownload(link) => DownloadShape(t, e, link, now);
    case EStartRenewal(d) => RenewalShape(t, d, now);
    case ESetCommand(d, command) => CommandShape(t, e, d, command, now);
    case EFinish(d, command, ok) => FinishShape(t, e, d, command, ok, now);
    case EAuthenticate(udid, ref) => AuthenticateShape(t, e, udid, ref);
    case ETokenUpdate(udid, ref) => TokenUpdateShape(t, e, udid, ref, now);
    case ECheckOut(udid) => CheckOutShape(t, e, udid, now);
    case EDelete(device) => DeleteShape(t, e, device);
  }

  lemma NothingShape(t: Tables, e: Event)
    requires Bounded(t)
    ensures Shape(t, t, e)
  {
  }

  lemma CreateShape(t: Tables, e: Event, device: nat, ttlHours: int, now: Time)
    requires Bounded(t)
    ensures Shape(t, Create(t, device, ttlHours, now), e)
  {
  }

  lemma RevokeShape(t: Tables, e: Event, device: nat, now: Time)
    requires Bounded(t)
    ensures Shape(t, Revoke(t, device, now), e)
  {
  }

  lemma DownloadShape(t: Tables, e: Event, link: Token, now: Time)
    requires Bounded(t)
    ensures Shape(t, Download(t, link, now), e)
  {
    hide ByLink;
  }

  lemma RenewalShape(t: Tables, d: nat, now: Time)
    requires Bounded(t)
    ensures Shape(t, StartRenewal(t, d, now), EStartRenewal(d))
  {
  }

  lemma CommandShape(t: Tables, e: Event, d: nat, command: string, now: Time)
    requires Bounded(t)
    ensures Shape(t, SetRenewalCommand(t, d, command), e)
  {
  }

  lemma FinishShape(t: Tables, e: Event, d: nat, command: string, ok: bool, now: Time)
    requires Bounded(t)
    ensures Shape(t, FinishRenewal(t, d, command, ok, now), e)
  {
  }

  lemma AuthenticateShape(t: Tables, e: Event, udid: string, ref: Token)
    requires Bounded(t)
    ensures Shape(t, Authenticate(t, udid, ref), e)
  {
    hide ByRef;
  }

  lemma TokenUpdateShape(t: Tables, e: Event, udid: string, ref: Token, now: Time)
    requires Bounded(t)
    ensures Shape(t, TokenUpdate(t, udid, ref, now), e)
  {
    hide ByRef, ByUdid;
  }

  lemma CheckOutShape(t: Tables, e: Event, udid: string, now: Time)
    requires Bounded(t)
    ensures Shape(t, CheckOut(t, udid, now), e)
  {
    hide ByUdid;
  }

  lemma DeleteShape(t: Tables, e: Event, device: nat)
    requires Bounded(t)
    ensures Shape(t, DeleteDevice(t, device), e)
  {
  }

  lemma ApplyUnique(t: Tables, e: Event, now: Time)
    requires Unique(t)
    ensures Unique(Apply(t, e, now))
  {
    hide Unique, Create, Revoke, Download, StartRenewal, SetRenewalCommand, FinishRenewal, Authenticate, TokenUpdate, CheckOut, DeleteDevice;
    match e
    case ECreate(device, ttlHours) => CreateUnique(t, device, ttlHours, now);
    case ERevoke(device) => RevokeUnique(t, device, now);
    case EDownload(link) => DownloadUnique(t, link, now);
    case EStartRenewal(d) => RenewalUnique(t, d, "", true, now);
    case ESetCommand(d, command) => RenewalUnique(t, d, command, true, now);
    case EFinish(d, command, ok) => RenewalUnique(t, d, command, ok, now);
    case EAuthenticate(udid, ref) => AuthenticateUnique(t, udid, ref);
    case ETokenUpdate(udid, ref) => TokenUpdateUnique(t, udid, ref, now);
    case ECheckOut(udid) => CheckOutUnique(t, udid, now);
    case EDelete(device) => DeleteUnique(t, device);
  }

  lemma CreateUnique(t: Tables, device: nat, ttlHours: int, now: Time)
    requires Unique(t)
    ensures Unique(Create(t, device, ttlHours, now))
  {
    hide Unique, RevokeOpen, NewEnrollment;
    RevokeUnique(t, device, now);
    InsertUnique(Revoke(t, device, now), device, now + ttlHours * 3600);
  }

  lemma DownloadUnique(t: Tables, link: Token, now: Time)
    requires Unique(t)
    ensures Unique(Download(t, link, now))
  {
    hide Unique;
    var r := ByLink(t.es, link);
    if r.Some? {
      var e := t.es[r.value];
      UniqueRow(t, r.value, e.(challenge := Some(t.nextToken), downloads := e.downloads + 1, downloadedAt := Some(now)), t.nextToken + 1);
    }
  }

  lemma RenewalUnique(t: Tables, d: nat, command: string, ok: bool, now: Time)
    requires Unique(t)
    ensures Unique(StartRenewal(t, d, now))
    ensures Unique(SetRenewalCommand(t, d, command))
    ensures Unique(FinishRenewal(t, d, command, ok, now))
  {
    hide Unique;
    if d in t.bs {
      var b := t.bs[d];
      UniqueBinding(t, d, b.(renewChallenge := Some(t.nextToken), renewStartedAt := Some(now), renewScepAt := None,
                             renewDoneAt := None, renewCommand := ""), t.nextToken + 1);
      UniqueBinding(t, d, b.(renewCommand := command), t.nextToken);
      if b.renewCommand == command {
        UniqueBinding(t, d, FinishRenewal(t, d, command, ok, now).bs[d], t.nextToken);
      }
    }
  }

  lemma AuthenticateUnique(t: Tables, udid: string, ref: Token)
    requires Unique(t)
    ensures Unique(Authenticate(t, udid, ref))
  {
    hide Unique;
    var r := Bindable(t.es, ref);
    if r.Some? { UniqueRow(t, r.value, t.es[r.value].(udid := udid), t.nextToken); }
  }

  lemma CheckOutUnique(t: Tables, udid: string, now: Time)
    requires Unique(t)
    ensures Unique(CheckOut(t, udid, now))
  {
    hide Unique;
    var d := ByUdid(t.bs, udid);
    if d.Some? { UniqueBinding(t, d.value, t.bs[d.value].(checkedOutAt := Some(now), lastSeenAt := now), t.nextToken); }
  }

  lemma TokenUpdateUnique(t: Tables, udid: string, ref: Token, now: Time)
    requires Unique(t)
    ensures Unique(TokenUpdate(t, udid, ref, now))
  {
    hide Unbound, Bound, Unique;
    var r := Bindable(t.es, ref);
    if r.None? {
      var d := ByUdid(t.bs, udid);
      if d.Some? { UniqueBinding(t, d.value, t.bs[d.value].(lastSeenAt := now), t.nextToken); }
    } else if !CarriesOther(t.es[r.value], udid) {
      var e := t.es[r.value];
      var e' := e.(udid := udid, enrolledAt := if e.enrolledAt.Some? then e.enrolledAt else Some(now));
      UniqueRow(t, r.value, e', t.nextToken);
      BindUnique(t.(es := t.es[r.value := e']), e.device, udid, r.value, now);
    }
  }

  lemma DeleteUnique(t: Tables, device: nat)
    requires Unique(t)
    ensures Unique(DeleteDevice(t, device))
  {
  }

  ghost predicate Counts(s: System) {
    && (forall id :: s.accepted[id] <= 1)
    && (forall id :: id in s.t.es && s.t.es[id].scepAt.None? ==> s.accepted[id] == 0)
    && (forall id :: s.t.nextId <= id ==> s.accepted[id] == 0)
  }

  ghost predicate Renewals(s: System) {
    && (forall c :: s.renewed[c] <= 1)
    && (forall c :: s.t.nextToken <= c ==> s.renewed[c] == 0)
    && (forall d :: d in s.t.bs && s.t.bs[d].renewChallenge.Some? ==>
          && d in s.latest && s.latest[d] == s.t.bs[d].renewChallenge.value
          && (s.t.bs[d].renewScepAt.None? ==> s.renewed[s.latest[d]] == 0))
  }

  ghost predicate SysInv(s: System) {
    Unique(s.t) && Bounded(s.t) && Counts(s) && Renewals(s)
  }

  lemma OtherKeeps(s: System, e: Event, now: Time)
    requires SysInv(s)
    ensures SysInv(Next(s, Other(e), now))
  {
    ApplyUnique(s.t, e, now);
    ApplyShape(s.t, e, now);
    OtherCounts(s, e, now);
    OtherRenewals(s, e, now);
    hide Apply, Unique, Counts, Renewals;
  }

  lemma OtherCounts(s: System, e: Event, now: Time)
    requires Counts(s) && Shape(s.t, Apply(s.t, e, now), e)
    ensures Counts(Next(s, Other(e), now)) && Bounded(Next(s, Other(e), now).t)
  {
    hide Apply;
  }

  lemma OtherRenewals(s: System, e: Event, now: Time)
    requires Renewals(s) && Shape(s.t, Apply(s.t, e, now), e)
    ensures Renewals(Next(s, Other(e), now))
  {
    if e.EStartRenewal? {
      StartedRenewals(s, e.d, now);
    } else {
      hide Apply;
      assert Next(s, Other(e), now).latest == s.latest;
    }
  }

  lemma StartedRenewals(s: System, d: nat, now: Time)
    requires Renewals(s)
    ensures Renewals(Next(s, Other(EStartRenewal(d)), now))
  {
  }

  // The updates a request in flight can make.
  lemma RevokedKeeps(s: System, id: nat, now: Time)
    requires SysInv(s) && id in s.t.es
    ensures SysInv(s.(t := s.t.(es := s.t.es[id := s.t.es[id].(revokedAt := Some(now))])))
  {
    UniqueRow(s.t, id, s.t.es[id].(revokedAt := Some(now)), s.t.nextToken);
    hide Unique;
  }

  lemma CertifiedKeeps(s: System, id: nat, now: Time)
    requires SysInv(s) && id in s.t.es && s.t.es[id].scepAt.None?
    ensures SysInv(s.(t := s.t.(es := s.t.es[id := s.t.es[id].(scepAt := Some(now))]), accepted := s.accepted[id := s.accepted[id] + 1]))
  {
    BelowNext(s.t, id);
    UniqueRow(s.t, id, s.t.es[id].(scepAt := Some(now)), s.t.nextToken);
    hide Unique;
  }

  lemma BelowNext(t: Tables, id: nat)
    requires Unique(t) && id in t.es
    ensures id < t.nextId
  {
  }

  lemma RejectedKeeps(s: System, d: nat)
    requires SysInv(s) && d in s.t.bs
    ensures SysInv(s.(t := s.t.(bs := s.t.bs[d := s.t.bs[d].(renewChallenge := None)])))
  {
    UniqueBinding(s.t, d, s.t.bs[d].(renewChallenge := None), s.t.nextToken);
    hide Unique;
  }

  lemma RenewedKeeps(s: System, d: nat, c: Token, now: Time)
    requires SysInv(s) && d in s.t.bs && s.t.bs[d].renewChallenge == Some(c) && s.t.bs[d].renewScepAt.None?
    ensures SysInv(s.(t := s.t.(bs := s.t.bs[d := s.t.bs[d].(renewScepAt := Some(now))]), renewed := s.renewed[c := s.renewed[c] + 1]))
  {
    OnlyOneHolds(s.t, d);
    UniqueBinding(s.t, d, s.t.bs[d].(renewScepAt := Some(now)), s.t.nextToken);
    hide Unique;
  }

  lemma OnlyOneHolds(t: Tables, d: nat)
    requires Unique(t) && d in t.bs
    ensures t.bs[d].renewChallenge.Some? ==>
              && t.bs[d].renewChallenge.value < t.nextToken
              && forall c :: c in t.bs && c != d ==> t.bs[c].renewChallenge != t.bs[d].renewChallenge
  {
  }

  lemma FlightsDoNotCount(s: System, flights: map<nat, Flight>)
    requires SysInv(s)
    ensures SysInv(s.(flights := flights))
  {
    hide Unique;
  }

  lemma EnrollmentAccess(s: System, k: nat, now: Time)
    requires SysInv(s) && k in s.flights && s.flights[k].AtEnrollment?
    ensures SysInv(Next(s, Continue(k), now))
  {
    hide SysInv;
    var f := s.flights[k];
    var s' := s.(flights := s.flights - {k});
    FlightsDoNotCount(s, s'.flights);
    if f.id in s.t.es {
      RevokedKeeps(s', f.id, f.now);
      if s.t.es[f.id].scepAt.None? { CertifiedKeeps(s', f.id, f.now); }
    }
  }

  lemma RenewalAccess(s: System, k: nat, now: Time)
    requires SysInv(s) && k in s.flights && s.flights[k].AtRenewal?
    ensures SysInv(Next(s, Continue(k), now))
  {
    hide SysInv;
    var f := s.flights[k];
    var s' := s.(flights := s.flights - {k});
    FlightsDoNotCount(s, s'.flights);
    if f.device in s.t.bs {
      RejectedKeeps(s', f.device);
      if s.t.bs[f.device].renewScepAt.None? && s.t.bs[f.device].renewChallenge == Some(f.challenge) {
        RenewedKeeps(s', f.device, f.challenge, f.now);
      }
    }
  }

  lemma NextKeeps(s: System, m: Move, now: Time)
    requires SysInv(s)
    ensures SysInv(Next(s, m, now))
  {
    hide SysInv, Apply, ScepRead, ScepLookup;
    match m {
      case Other(e) => OtherKeeps(s, e, now);
      case Request(k, challenge, cn) =>
        FlightsDoNotCount(s, Next(s, m, now).flights);
      case Continue(k) =>
        if k in s.flights {
          match s.flights[k] {
            case AtEnrollment(_, _, _) => EnrollmentAccess(s, k, now);
            case AtRenewal(_, _, _, _) => RenewalAccess(s, k, now);
            case AtLookup(_, _, _) => FlightsDoNotCount(s, Next(s, m, now).flights);
          }
        }
    }
  }

  datatype Timed = Timed(m: Move, now: Time)

  ghost function RunSys(s: System, ms: seq<Timed>): System
    decreases |ms|
  {
    if ms == [] then s else RunSys(Next(s, ms[0].m, ms[0].now), ms[1..])
  }

  // However requests interleave: at most one challenge is accepted per enrollment and at
  // most one per started renewal, and no link is downloaded more than five times.
  lemma {:induction false} CertificatesAtMostOnce(s: System, ms: seq<Timed>)
    requires SysInv(s)
    ensures var r := RunSys(s, ms);
            && SysInv(r)
            && (forall id :: r.accepted[id] <= 1)
            && (forall c :: r.renewed[c] <= 1)
            && (forall id :: id in r.t.es ==> r.t.es[id].downloads <= MAX_DOWNLOADS)
    decreases |ms|
  {
    hide Next;
    if ms != [] {
      NextKeeps(s, ms[0].m, ms[0].now);
      CertificatesAtMostOnce(Next(s, ms[0].m, ms[0].now), ms[1..]);
    }
  }

  lemma NothingYet()
    ensures SysInv(System(EMPTY, map[], multiset{}, multiset{}, map[]))
  {
  }

  // A renewal challenge is accepted only while it is the newest of its device.
  lemma OnlyTheNewestRenewal(s: System, k: nat, now: Time)
    requires SysInv(s) && k in s.flights && s.flights[k].AtRenewal?
    ensures var f := s.flights[k];
            Next(s, Continue(k), now).renewed != s.renewed ==> f.device in s.latest && s.latest[f.device] == f.challenge
  {
    var f := s.flights[k];
    if f.device in s.t.bs && s.t.bs[f.device].renewChallenge == Some(f.challenge) {
      assert s.latest[f.device] == f.challenge;
    }
  }

  // ---- the word for the dashboard only moves forward ---------------------------------------

  // Nothing that happened to an enrollment is undone.
  predicate Later(e: Enrollment, e': Enrollment) {
    && e'.expiresAt == e.expiresAt
    && (e.downloadedAt.Some? ==> e'.downloadedAt.Some?)
    && (e.scepAt.Some? ==> e'.scepAt.Some?)
    && (e.enrolledAt.Some? ==> e'.enrolledAt.Some?)
    && (e.revokedAt.Some? ==> e'.revokedAt.Some?)
  }

  ghost predicate AllLater(t: Tables, t': Tables) {
    && t.nextId <= t'.nextId
    && (forall id :: id in t'.es ==> id < t'.nextId)
    && (forall id :: id in t'.es ==> (id in t.es && Later(t.es[id], t'.es[id])) || t.nextId <= id)
  }

  ghost predicate IdsBelow(t: Tables) { forall id :: id in t.es ==> id < t.nextId }

  lemma ApplyLater(t: Tables, e: Event, now: Time)
    requires IdsBelow(t)
    ensures AllLater(t, Apply(t, e, now))
  {
    if e.ECreate? {
      CreateLater(t, e.device, e.ttlHours, now);
    }
  }

  lemma CreateLater(t: Tables, device: nat, ttlHours: int, now: Time)
    requires IdsBelow(t)
    ensures AllLater(t, Create(t, device, ttlHours, now))
  {
  }

  lemma NextLater(s: System, m: Move, now: Time)
    requires IdsBelow(s.t)
    ensures AllLater(s.t, Next(s, m, now).t)
  {
    hide Apply, ScepRead, ScepLookup;
    match m {
      case Other(e) => ApplyLater(s.t, e, now);
      case Request(_, _, _) =>
      case Continue(k) => if k in s.flights { AccessLater(s.t, s.flights[k]); }
    }
  }

  lemma AccessLater(t: Tables, f: Flight)
    requires IdsBelow(t)
    ensures AllLater(t, ScepAdvance(t, f).0)
  {
    hide ScepLookup;
  }

  lemma UniqueIsBelow(t: Tables)
    requires Unique(t)
    ensures IdsBelow(t)
  {
  }

  lemma {:induction false} RunLater(s: System, ms: seq<Timed>)
    requires SysInv(s)
    ensures AllLater(s.t, RunSys(s, ms).t)
    decreases |ms|
  {
    hide Next, Later, Counts, Renewals, Bounded;
    if ms == [] {
      SameIsLater(s.t);
    } else {
      var s' := Next(s, ms[0].m, ms[0].now);
      NextKeeps(s, ms[0].m, ms[0].now);
      UniqueIsBelow(s.t);
      NextLater(s, ms[0].m, ms[0].now);
      RunLater(s', ms[1..]);
      LaterTwice(s.t, s'.t, RunSys(s', ms[1..]).t);
    }
  }

  lemma SameIsLater(t: Tables)
    requires Unique(t)
    ensures AllLater(t, t)
  {
  }

  lemma LaterTwice(a: Tables, b: Tables, c: Tables)
    requires AllLater(a, b) && AllLater(b, c)
    ensures AllLater(a, c)
  {
  }

  lemma LaterRanksHigher(e: Enrollment, e': Enrollment, before: Time, now: Time)
    requires Later(e, e') && before <= now
    ensures Rank(EnrollmentState(e, before)) <= Rank(EnrollmentState(e', now))
  {
  }

  // waiting < downloaded < expired < certificate < enrolled < revoked: over any run, and
  // however requests interleave, an enrollment only moves up while the clock does not run
  // backwards.
  lemma StateOnlyMovesUp(s: System, ms: seq<Timed>, id: nat, before: Time, now: Time)
    requires SysInv(s) && before <= now
    requires id in s.t.es && id in RunSys(s, ms).t.es
    ensures Rank(EnrollmentState(s.t.es[id], before)) <= Rank(EnrollmentState(RunSys(s, ms).t.es[id], now))
  {
    hide RunSys, Later;
    RunLater(s, ms);
    BelowNext(s.t, id);
    LaterRanksHigher(s.t.es[id], RunSys(s, ms).t.es[id], before, now);
  }

  // ---- where interleaving breaks the binding -------------------------------------------------

  // A CSR with the wrong name that read the enrollment early revokes it late. That leaves
  // the tables in order if and only if nothing is bound to it by then.
  lemma LateRevocationKeepsIff(t: Tables, id: nat, now: Time)
    requires Inv(t) && id in t.es
    ensures Inv(ScepAtEnrollment(t, id, false, now).0) <==> !IsBound(t, id)
  {
    hide Unique, Bindings, OneOpen, Rows;
    if IsBound(t, id) { LateRevocationBreaks(t, id, now); } else { LateRevocationIsHarmless(t, id, now); }
  }

  ghost predicate IsBound(t: Tables, id: nat) { exists d :: d in t.bs && t.bs[d].enrollment == id }

  lemma LateRevocationBreaks(t: Tables, id: nat, now: Time)
    requires Bindings(t) && id in t.es && IsBound(t, id)
    ensures !Bindings(ScepAtEnrollment(t, id, false, now).0)
  {
    var t' := ScepAtEnrollment(t, id, false, now).0;
    var d :| d in t.bs && t.bs[d].enrollment == id;
    assert !RestsOn(t'.es, d, t'.bs[d]);
  }

  lemma LateRevocationIsHarmless(t: Tables, id: nat, now: Time)
    requires Inv(t) && id in t.es && !IsBound(t, id)
    ensures Inv(ScepAtEnrollment(t, id, false, now).0)
  {
    UniqueRow(t, id, t.es[id].(revokedAt := Some(now)), t.nextToken);
    HarmlessRest(t, id, now);
    hide Unique, Bindings, OneOpen, Rows;
  }

  lemma HarmlessRest(t: Tables, id: nat, now: Time)
    requires Rows(t.es) && OneOpen(t.es) && Bindings(t) && id in t.es && !IsBound(t, id)
    ensures var t' := ScepAtEnrollment(t, id, false, now).0; Rows(t'.es) && OneOpen(t'.es) && Bindings(t')
  {
  }

  // A request that carries another name comes to write while a phone is bound to the enrollment.
  ghost predicate MeetsBound(s: System, m: Move) {
    && m.Continue? && m.k in s.flights && s.flights[m.k].AtEnrollment? && !s.flights[m.k].named
    && s.flights[m.k].id in s.t.es && IsBound(s.t, s.flights[m.k].id)
  }

  lemma MoveKeepsIff(s: System, m: Move, now: Time)
    requires Inv(s.t)
    ensures Inv(Next(s, m, now).t) <==> !MeetsBound(s, m)
  {
    hide Inv, IsBound, Apply, ScepRead, ScepLookup, ScepAtEnrollment, ScepAtRenewal;
    match m {
      case Other(e) => ApplyKeeps(s.t, e, now);
      case Request(k, challenge, cn) =>
      case Continue(k) =>
        if k in s.flights {
          match s.flights[k] {
            case AtEnrollment(id, named, at) =>
              if id !in s.t.es || named { NamedKeeps(s.t, id, named, at); } else { LateRevocationKeepsIff(s.t, id, at); }
            case AtRenewal(d, c, named, at) => RenewalKeeps(s.t, d, c, named, at);
            case AtLookup(_, _, _) =>
          }
        }
    }
  }

  lemma NamedKeeps(t: Tables, id: nat, named: bool, now: Time)
    requires Inv(t) && (id !in t.es || named)
    ensures Inv(ScepAtEnrollment(t, id, named, now).0)
  {
    hide Inv;
    if id in t.es && t.es[id].scepAt.None? && IsOpen(t.es[id]) {
      RowsAreBounded(t, id);
      RowKeeps(t, id, t.es[id].(scepAt := Some(now)), t.nextToken);
    }
  }

  lemma RowsAreBounded(t: Tables, id: nat)
    requires Inv(t) && id in t.es
    ensures t.es[id].downloads <= MAX_DOWNLOADS && (t.es[id].enrolledAt.Some? ==> t.es[id].scepAt.Some?)
  {
  }

  lemma RenewalKeeps(t: Tables, d: nat, challenge: Token, named: bool, now: Time)
    requires Inv(t)
    ensures Inv(ScepAtRenewal(t, d, challenge, named, now).0)
  {
    hide Inv;
    if d in t.bs {
      BindingKeeps(t, d, if named then t.bs[d].(renewScepAt := Some(now)) else t.bs[d].(renewChallenge := None), t.nextToken);
    }
  }

  ghost predicate NeverMeets(s: System, ms: seq<Timed>)
    decreases |ms|
  {
    ms == [] || (!MeetsBound(s, ms[0].m) && NeverMeets(Next(s, ms[0].m, ms[0].now), ms[1..]))
  }

  // However requests interleave, the tables stay in order throughout a run exactly if no
  // request with another name writes to an enrollment a phone is bound to.
  lemma BindingsHoldThroughoutIff(s: System, ms: seq<Timed>)
    requires Inv(s.t)
    ensures (forall n :: 0 <= n <= |ms| ==> Inv(RunSys(s, ms[..n]).t)) <==> NeverMeets(s, ms)
  {
    hide Inv, RunSys, NeverMeets;
    if NeverMeets(s, ms) {
      forall n | 0 <= n <= |ms|
        ensures Inv(RunSys(s, ms[..n]).t)
      {
        HoldsUpTo(s, ms, n);
      }
    } else {
      var n := BreaksAt(s, ms);
    }
  }

  lemma {:induction false} HoldsUpTo(s: System, ms: seq<Timed>, n: nat)
    requires Inv(s.t) && NeverMeets(s, ms) && n <= |ms|
    ensures Inv(RunSys(s, ms[..n]).t)
    decreases n
  {
    hide Inv, MeetsBound, Next;
    if n > 0 {
      assert ms[..n][0] == ms[0] && ms[..n][1..] == ms[1..][..n - 1];
      MoveKeepsIff(s, ms[0].m, ms[0].now);
      HoldsUpTo(Next(s, ms[0].m, ms[0].now), ms[1..], n - 1);
    }
  }

  lemma {:induction false} BreaksAt(s: System, ms: seq<Timed>) returns (n: nat)
    requires Inv(s.t) && !NeverMeets(s, ms)
    ensures n <= |ms| && !Inv(RunSys(s, ms[..n]).t)
    decreases |ms|
  {
    hide Inv, MeetsBound, Next;
    MoveKeepsIff(s, ms[0].m, ms[0].now);
    if MeetsBound(s, ms[0].m) {
      n := 1;
      assert ms[..1] == [ms[0]] && [ms[0]][1..] == [];
    } else {
      var rest := BreaksAt(Next(s, ms[0].m, ms[0].now), ms[1..]);
      n := rest + 1;
      assert ms[..n][0] == ms[0] && ms[..n][1..] == ms[1..][..rest];
    }
  }

  // Such a run: two requests with the same challenge, one of them with another name, read
  // before either writes, and the phone enrolls in between.
  lemma RaceRevokesABoundEnrollment()
    ensures var s1 := Next(System(EMPTY, map[], multiset{}, multiset{}, map[]), Other(ECreate(7, 24)), 1);
            var s2 := Next(s1, Other(EDownload(1)), 1);
            var s4 := Next(Next(s2, Request(0, 2, 99), 1), Request(1, 2, 0), 1);
            var s5 := Next(s4, Continue(1), 1);
            var s7 := Next(Next(s5, Other(ETokenUpdate("A", 0)), 1), Continue(0), 1);
            && 7 in s7.t.bs && s7.t.bs[7].enrollment == 0
            && 0 in s7.t.es && s7.t.es[0].revokedAt.Some?
  {
    RaceDownloads();
    RaceReads();
    hide Next;
    RaceEnds();
  }

  const E2: Enrollment := NewEnrollment(7, 0, 1, 1 + 24 * 3600).(challenge := Some(2), downloads := 1, downloadedAt := Some(1))
  const T2: Tables := Tables(map[0 := E2], map[], 1, 3)
  const S2: System := System(T2, map[], multiset{}, multiset{}, map[])
  const S4: System := S2.(flights := map[0 := AtEnrollment(0, false, 1), 1 := AtEnrollment(0, true, 1)])

  lemma OneRow(es: map<nat, Enrollment>, id: nat, e: Enrollment)
    requires es == map[id := e]
    ensures ByRef(es, e.ref) == Some(id) && ByLink(es, e.link) == Some(id)
    ensures e.challenge.Some? ==> ByChallenge(es, e.challenge.value) == Some(id)
  {
    assert id in es && es[id].ref == e.ref && es[id].link == e.link && es[id].challenge == e.challenge;
  }

  lemma RaceDownloads()
    ensures var s1 := Next(System(EMPTY, map[], multiset{}, multiset{}, map[]), Other(ECreate(7, 24)), 1);
            Next(s1, Other(EDownload(1)), 1) == S2
  {
    var e1 := NewEnrollment(7, 0, 1, 1 + 24 * 3600);
    var s1 := Next(System(EMPTY, map[], multiset{}, multiset{}, map[]), Other(ECreate(7, 24)), 1);
    assert s1.t.es == map[0 := e1];
    OneRow(s1.t.es, 0, e1);
    assert s1.t.es[0 := E2] == map[0 := E2];
  }

  lemma RaceReads()
    ensures Next(Next(S2, Request(0, 2, 99), 1), Request(1, 2, 0), 1) == S4
  {
    OneRow(T2.es, 0, E2);
    var s3 := Next(S2, Request(0, 2, 99), 1);
    assert s3.flights == map[0 := AtEnrollment(0, false, 1)];
    assert Next(s3, Request(1, 2, 0), 1).flights == S4.flights;
  }

  lemma RaceEnds()
    ensures var s5 := Next(S4, Continue(1), 1);
            var s7 := Next(Next(s5, Other(ETokenUpdate("A", 0)), 1), Continue(0), 1);
            && 7 in s7.t.bs && s7.t.bs[7].enrollment == 0
            && 0 in s7.t.es && s7.t.es[0].revokedAt.Some?
  {
    var e5 := E2.(scepAt := Some(1));
    var s5 := Next(S4, Continue(1), 1);
    assert s5.t.es == map[0 := e5] && s5.flights == map[0 := AtEnrollment(0, false, 1)];
    OneRow(s5.t.es, 0, e5);
    var s6 := Next(s5, Other(ETokenUpdate("A", 0)), 1);
    assert 7 in s6.t.bs && s6.t.bs[7].enrollment == 0 && s6.flights == s5.flights;
  }
}
