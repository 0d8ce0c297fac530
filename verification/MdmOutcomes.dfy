// What each enrollment handler does to the rows of the two tables, column by column.
module MdmOutcomes {
  import opened Wrappers
  import opened Mdm
  import opened MdmInvariant
  import R = MdmRuns

  ghost predicate OnlyEnrollment(t: Tables, after: Tables, id: nat) {
    && after.bs == t.bs && after.nextId == t.nextId && after.es.Keys == t.es.Keys
    && forall i :: i in t.es && i != id ==> after.es[i] == t.es[i]
  }

  ghost predicate OnlyBinding(t: Tables, after: Tables, d: nat) {
    && after.es == t.es && after.nextId == t.nextId && after.bs.Keys == t.bs.Keys
    && forall i :: i in t.bs && i != d ==> after.bs[i] == t.bs[i]
  }

  // ---- links -----------------------------------------------------------------------------

  // The device's link that could still be used is revoked, and a new one of its own is open
  // for ttl hours; nothing else changes.
  lemma CreateIs(t: Tables, device: nat, ttlHours: int, now: Time)
    requires Unique(t)
    ensures var after, id := Create(t, device, ttlHours, now), t.nextId;
            && after == R.Apply(t, R.ECreate(device, ttlHours), now)
            && after.bs == t.bs && id !in t.es && after.es.Keys == t.es.Keys + {id}
            && (forall i :: i in t.es && (t.es[i].device != device || t.es[i].revokedAt.Some? || t.es[i].enrolledAt.Some?) ==> after.es[i] == t.es[i])
            && (forall i :: i in t.es && t.es[i].device == device && t.es[i].revokedAt.None? && t.es[i].enrolledAt.None? ==>
                  after.es[i] == t.es[i].(revokedAt := Some(now)))
            && (forall i :: i in t.es ==> after.es[id].ref != t.es[i].ref && after.es[id].link != t.es[i].link)
            && after.es[id] == Enrollment(device, after.es[id].ref, after.es[id].link, None, now + ttlHours * 60 * 60, 0, None, None, None, None, "")
  {
  }

  lemma RevokeIs(t: Tables, device: nat, now: Time)
    ensures var after := Revoke(t, device, now);
            && after == R.Apply(t, R.ERevoke(device), now) && after.bs == t.bs && after.es.Keys == t.es.Keys
            && forall i :: i in t.es ==>
                 (after.es[i] == if t.es[i].device == device && t.es[i].revokedAt.None? && t.es[i].enrolledAt.None?
                                 then t.es[i].(revokedAt := Some(now)) else t.es[i])
  {
  }

  // A link can be downloaded five times, until its certificate is issued or it expires.
  ghost predicate CanDownload(t: Tables, id: nat, link: Token, now: Time) {
    && id in t.es && t.es[id].link == link
    && t.es[id].revokedAt.None? && t.es[id].enrolledAt.None? && t.es[id].scepAt.None?
    && now < t.es[id].expiresAt && t.es[id].downloads <= 4
  }

  // Each download has a challenge no row has had before, in place of the last one.
  lemma DownloadIs(t: Tables, link: Token, now: Time)
    requires Unique(t)
    ensures Download(t, link, now) == R.Apply(t, R.EDownload(link), now)
    ensures var after := Download(t, link, now);
            && (forall id :: CanDownload(t, id, link, now) ==>
                  && OnlyEnrollment(t, after, id) && after.es[id].challenge.Some?
                  && (forall i :: i in t.es ==> t.es[i].challenge != after.es[id].challenge)
                  && (forall d :: d in t.bs ==> t.bs[d].renewChallenge != after.es[id].challenge)
                  && after.es[id] == t.es[id].(challenge := after.es[id].challenge, downloads := t.es[id].downloads + 1, downloadedAt := Some(now)))
            && ((forall id :: !CanDownload(t, id, link, now)) ==> after == t)
  {
    var r := ByLink(t.es, link);
    if r.Some? {
      assert forall id :: CanDownload(t, id, link, now) ==> id == r.value;
      assert CanDownload(t, r.value, link, now) <==> MayDownload(t.es[r.value], now);
    }
    hide ByLink;
  }

  // ---- renewal ---------------------------------------------------------------------------

  ghost predicate CanRenew(t: Tables, d: nat) { d in t.bs && t.bs[d].enrollment in t.es && t.bs[d].checkedOutAt.None? }

  lemma StartRenewalIs(t: Tables, d: nat, now: Time)
    requires Unique(t)
    ensures StartRenewal(t, d, now) == R.Apply(t, R.EStartRenewal(d), now)
    ensures var after := StartRenewal(t, d, now);
            && (!CanRenew(t, d) ==> after == t)
            && (CanRenew(t, d) ==>
                  && OnlyBinding(t, after, d) && after.bs[d].renewChallenge.Some?
                  && (forall i :: i in t.es ==> t.es[i].challenge != after.bs[d].renewChallenge)
                  && (forall i :: i in t.bs ==> t.bs[i].renewChallenge != after.bs[d].renewChallenge)
                  && after.bs[d] == t.bs[d].(renewChallenge := after.bs[d].renewChallenge, renewStartedAt := Some(now), renewScepAt := None,
                                             renewDoneAt := None, renewCommand := ""))
  {
  }

  // The answer to the newest command ends the renewal; a good one dates the new certificate.
  lemma FinishRenewalIs(t: Tables, d: nat, command: string, ok: bool, now: Time)
    ensures FinishRenewal(t, d, command, ok, now) == R.Apply(t, R.EFinish(d, command, ok), now)
    ensures var after := FinishRenewal(t, d, command, ok, now);
            && (!(d in t.bs && t.bs[d].renewCommand == command) ==> after == t)
            && (d in t.bs && t.bs[d].renewCommand == command ==>
                  && OnlyBinding(t, after, d) && after.bs[d].renewChallenge.None?
                  && (!ok ==> after.bs[d] == t.bs[d].(renewChallenge := None))
                  && (ok ==> after.bs[d] == t.bs[d].(renewChallenge := None, renewDoneAt := Some(now), issuedAt := after.bs[d].issuedAt))
                  && (ok && t.bs[d].renewScepAt.Some? ==> after.bs[d].issuedAt == t.bs[d].renewScepAt)
                  && (ok && t.bs[d].renewScepAt.None? ==> after.bs[d].issuedAt == Some(now)))
  {
  }

  lemma CommandIs(t: Tables, d: nat, command: string, now: Time)
    ensures R.Apply(t, R.ESetCommand(d, command), now) == SetRenewalCommand(t, d, command)
    ensures var after := SetRenewalCommand(t, d, command);
            if d in t.bs then OnlyBinding(t, after, d) && after.bs[d] == t.bs[d].(renewCommand := command) else after == t
  {
  }

  // ---- check-in --------------------------------------------------------------------------

  // An enrollment a phone may check in with: certified, not revoked, and not another phone's.
  ghost predicate Admits(t: Tables, id: nat, ref: Token, udid: string) {
    && id in t.es && t.es[id].ref == ref && t.es[id].revokedAt.None? && t.es[id].scepAt.Some?
    && (t.es[id].udid == "" || t.es[id].udid == udid)
  }

  lemma OnlyRef(t: Tables, id: nat, ref: Token)
    requires Unique(t) && id in t.es && t.es[id].ref == ref
    ensures ByRef(t.es, ref) == Some(id)
  {
  }

  lemma AuthenticateIs(t: Tables, udid: string, ref: Token, now: Time)
    requires Unique(t)
    ensures R.Apply(t, R.EAuthenticate(udid, ref), now) == if udid == "" then t else Authenticate(t, udid, ref)
    ensures var after := Authenticate(t, udid, ref);
            && (forall id :: Admits(t, id, ref, udid) ==> OnlyEnrollment(t, after, id) && after.es[id] == t.es[id].(udid := udid))
            && ((forall id :: !Admits(t, id, ref, udid)) ==> after == t)
  {
    if id :| Admits(t, id, ref, udid) { OnlyRef(t, id, ref); }
    var r := ByRef(t.es, ref);
    if r.Some? { assert forall id :: Admits(t, id, ref, udid) ==> id == r.value; }
    if r.Some? && Authenticate(t, udid, ref) != t { assert Admits(t, r.value, ref, udid); }
    hide ByRef;
  }

  // A phone that may check in is bound to the enrollment's device, and to no other; the
  // enrollment is enrolled from its first check-in on, and so is the binding unless it has
  // come to rest on another enrollment.
  ghost predicate IsBoundTo(t: Tables, after: Tables, id: nat, udid: string, now: Time) {
    id in t.es &&
    var e := t.es[id];
    && after.nextId == t.nextId && after.es.Keys == t.es.Keys
    && (forall i :: i in t.es && i != id ==> after.es[i] == t.es[i])
    && id in after.es && after.es[id] == e.(udid := udid, enrolledAt := after.es[id].enrolledAt)
    && after.es[id].enrolledAt == (if e.enrolledAt.None? then Some(now) else e.enrolledAt)
    && (forall d :: d in after.bs <==> d == e.device || (d in t.bs && t.bs[d].udid != udid))
    && (forall d :: d in after.bs && d != e.device ==> after.bs[d] == t.bs[d])
    && after.bs[e.device].udid == udid && after.bs[e.device].enrollment == id
    && after.bs[e.device].lastSeenAt == now && after.bs[e.device].checkedOutAt.None?
    && (e.device in t.bs ==>
          && after.bs[e.device].enrolledAt == (if t.bs[e.device].enrollment == id then t.bs[e.device].enrolledAt else now)
          && after.bs[e.device] == t.bs[e.device].(udid := udid, enrollment := id, lastSeenAt := now, checkedOutAt := None,
                                                   enrolledAt := after.bs[e.device].enrolledAt))
    && (e.device !in t.bs ==> after.bs[e.device] == Binding(udid, id, now, now, None, None, None, None, None, None, ""))
  }

  // Nothing to check in with: the binding of the phone, if it has one, has been seen.
  ghost predicate IsSeen(t: Tables, after: Tables, udid: string, now: Time) {
    && after.es == t.es && after.nextId == t.nextId && after.bs.Keys == t.bs.Keys
    && forall d :: d in t.bs ==> after.bs[d] == if t.bs[d].udid == udid then t.bs[d].(lastSeenAt := now) else t.bs[d]
  }

  ghost predicate Certified(t: Tables, id: nat, ref: Token) {
    id in t.es && t.es[id].ref == ref && t.es[id].revokedAt.None? && t.es[id].scepAt.Some?
  }

  lemma TokenUpdateIs(t: Tables, udid: string, ref: Token, now: Time)
    requires Unique(t) && Bijective(t.bs)
    ensures R.Apply(t, R.ETokenUpdate(udid, ref), now) == if udid == "" then t else TokenUpdate(t, udid, ref, now)
    ensures var after := TokenUpdate(t, udid, ref, now);
            && (forall id :: Admits(t, id, ref, udid) ==> IsBoundTo(t, after, id, udid, now))
            && ((forall id :: !Certified(t, id, ref)) ==> IsSeen(t, after, udid, now))
            && ((exists id :: Certified(t, id, ref)) && (forall id :: !Admits(t, id, ref, udid)) ==> after == t)
  {
    var r := ByRef(t.es, ref);
    if r.Some? {
      assert forall id :: Certified(t, id, ref) || Admits(t, id, ref, udid) ==> id == r.value;
    }
    forall id | Admits(t, id, ref, udid)
      ensures IsBoundTo(t, TokenUpdate(t, udid, ref, now), id, udid, now)
    {
      OnlyRef(t, id, ref);
      BindsIt(t, udid, ref, id, now);
    }
    if forall id :: !Certified(t, id, ref) { SeesIt(t, udid, ref, now); }
    if r.Some? && Certified(t, r.value, ref) && !Admits(t, r.value, ref, udid) {
      assert TokenUpdate(t, udid, ref, now) == t;
    }
    hide ByRef, TokenUpdate, IsBoundTo, IsSeen;
  }

  lemma BindsIt(t: Tables, udid: string, ref: Token, id: nat, now: Time)
    requires Admits(t, id, ref, udid) && ByRef(t.es, ref) == Some(id)
    ensures IsBoundTo(t, TokenUpdate(t, udid, ref, now), id, udid, now)
  {
    hide ByRef;
  }

  lemma SeesIt(t: Tables, udid: string, ref: Token, now: Time)
    requires Bijective(t.bs) && forall id :: !Certified(t, id, ref)
    ensures IsSeen(t, TokenUpdate(t, udid, ref, now), udid, now)
  {
    var r := ByRef(t.es, ref);
    if r.Some? { assert !Certified(t, r.value, ref); }
    hide ByRef;
  }

  lemma CheckOutIs(t: Tables, udid: string, now: Time)
    requires Bijective(t.bs)
    ensures R.Apply(t, R.ECheckOut(udid), now) == if udid == "" then t else CheckOut(t, udid, now)
    ensures var after := CheckOut(t, udid, now);
            && after.es == t.es && after.bs.Keys == t.bs.Keys
            && forall d :: d in t.bs ==>
                 (after.bs[d] == if t.bs[d].udid == udid then t.bs[d].(checkedOutAt := Some(now), lastSeenAt := now) else t.bs[d])
  {
  }

  lemma DeleteDeviceIs(t: Tables, device: nat, now: Time)
    ensures R.Apply(t, R.EDelete(device), now) == DeleteDevice(t, device)
    ensures var after := DeleteDevice(t, device);
            && (forall i :: i in after.es <==> i in t.es && t.es[i].device != device)
            && (forall d :: d in after.bs <==> d in t.bs && d != device)
            && (forall i :: i in after.es ==> after.es[i] == t.es[i]) && (forall d :: d in after.bs ==> after.bs[d] == t.bs[d])
  {
  }

  // ---- the word for the dashboard --------------------------------------------------------

  // What happened last decides, and a bound enrollment stays enrolled after its link expired.
  lemma StateIs(e: Enrollment, now: Time)
    ensures EnrollmentState(e, now) == Revoked <==> e.revokedAt.Some?
    ensures EnrollmentState(e, now) == Enrolled <==> e.revokedAt.None? && e.enrolledAt.Some?
    ensures EnrollmentState(e, now) == Certificate <==> e.revokedAt.None? && e.enrolledAt.None? && e.scepAt.Some?
    ensures EnrollmentState(e, now) == Expired <==> e.revokedAt.None? && e.enrolledAt.None? && e.scepAt.None? && e.expiresAt <= now
    ensures EnrollmentState(e, now) == Downloaded <==>
            e.revokedAt.None? && e.enrolledAt.None? && e.scepAt.None? && now < e.expiresAt && e.downloadedAt.Some?
    ensures EnrollmentState(e, now) == Waiting <==>
            e.revokedAt.None? && e.enrolledAt.None? && e.scepAt.None? && now < e.expiresAt && e.downloadedAt.None?
  {
  }
}
