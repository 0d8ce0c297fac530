// The enrollment handlers as they work on the two tables.
module MdmStore {
  import opened Wrappers
  import opened Mdm
  import opened MdmInvariant
  import opened MdmRequests
  import opened MdmOutcomes
  import R = MdmRuns

  class Store {
    var es: map<nat, Enrollment>
    var bs: map<nat, Binding>
    var nextId: nat
    var nextToken: Token

    ghost function View(): Tables
      reads this
    {
      Tables(es, bs, nextId, nextToken)
    }

    ghost predicate Valid()
      reads this
    {
      Inv(View())
    }

    constructor ()
      ensures Valid() && es == map[] && bs == map[]
    {
      es, bs, nextId, nextToken := map[], map[], 0, 0;
    }

    method FreshToken() returns (t: Token)
      modifies this`nextToken
      ensures t == old(nextToken) && nextToken == t + 1
    {
      t := nextToken;
      nextToken := nextToken + 1;
    }

    // ---- _enrollment_by and friends: the columns are unique ---------------------------------

    method EnrollmentByRef(ref: Token) returns (r: Option<nat>)
      requires Valid()
      ensures r == ByRef(es, ref)
    {
      if id: nat :| id in es && es[id].ref == ref {
        r := Some(id);
      } else {
        r := None;
      }
    }

    method EnrollmentByLink(link: Token) returns (r: Option<nat>)
      requires Valid()
      ensures r == ByLink(es, link)
    {
      if id: nat :| id in es && es[id].link == link {
        r := Some(id);
      } else {
        r := None;
      }
    }

    method EnrollmentByChallenge(challenge: Token) returns (r: Option<nat>)
      requires Valid()
      ensures r == ByChallenge(es, challenge)
    {
      if id: nat :| id in es && es[id].challenge == Some(challenge) {
        r := Some(id);
      } else {
        r := None;
      }
    }

    method DeviceForUdid(udid: string) returns (r: Option<nat>)
      requires Valid()
      ensures r == ByUdid(bs, udid)
    {
      if d: nat :| d in bs && bs[d].udid == udid {
        r := Some(d);
      } else {
        r := None;
      }
    }

    method BindableFor(ref: Token) returns (r: Option<nat>)
      requires Valid()
      ensures r == Bindable(es, ref)
    {
      var row := EnrollmentByRef(ref);
      if row.None? || es[row.value].revokedAt.Some? || es[row.value].scepAt.None? {
        return None;
      }
      return row;
    }

    // ---- handlers ---------------------------------------------------------------------------------

    method CreateEnrollment(device: nat, ttlHours: int, now: Time) returns (link: Token, id: nat)
      requires Valid()
      modifies this
      ensures Valid() && View() == Create(old(View()), device, ttlHours, now)
      ensures id in es && es[id].link == link && es[id].device == device && IsOpen(es[id])
    {
      hide Inv, RevokeOpen;
      ghost var t0 := View();
      CreateKeeps(t0, device, ttlHours, now);
      var ref := FreshToken();
      link := FreshToken();
      id := nextId;
      nextId := nextId + 1;
      var row := NewEnrollment(device, ref, link, now + ttlHours * 3600);
      es := RevokeOpen(es, device, now)[id := row];
      assert es[id] == row;
      assert View() == Create(t0, device, ttlHours, now);
    }

    method IssueProfileChallenge(link: Token, now: Time) returns (challenge: Option<Token>)
      requires Valid()
      modifies this`es, this`nextToken
      ensures Valid() && View() == Download(old(View()), link, now)
      ensures challenge.Some? <==>
              exists id :: id in old(es) && old(es)[id].link == link && MayDownload(old(es)[id], now)
      ensures challenge.Some? ==> exists id :: id in es && es[id].link == link && es[id].challenge == challenge
    {
      hide Inv, ByLink;
      ghost var t0 := View();
      DownloadKeeps(t0, link, now);
      LinkDecides(t0, link, now);
      challenge := None;
      var row := EnrollmentByLink(link);
      if row.Some? {
        var e := es[row.value];
        if e.revokedAt.None? && e.enrolledAt.None? && e.scepAt.None? && e.expiresAt > now && e.downloads < MAX_DOWNLOADS {
          var c := FreshToken();
          es := es[row.value := e.(challenge := Some(c), downloads := e.downloads + 1, downloadedAt := Some(now))];
          challenge := Some(c);
          assert es[row.value].link == link;
        }
      }
      assert View() == Download(t0, link, now);
    }

    // Without a challenge there is nothing to look up.
    method VerifyScepRequest(given: Option<Token>, commonName: Token, now: Time) returns (outcome: Outcome)
      requires Valid()
      modifies this
      ensures Valid()
      ensures (View(), outcome) == if given.None? then (old(View()), Unknown) else VerifyScep(old(View()), given.value, commonName, now)
      ensures given.Some? ==> View() == R.Handle(old(View()), R.Scep(given.value, commonName), now)
      ensures outcome == Ok <==> given.Some? && IsAccepted(old(View()), given.value, commonName, now)
      ensures outcome == CnMismatch <==> given.Some? && IsMisnamed(old(View()), given.value, commonName, now)
      ensures if given.Some? then Leaves(old(View()), View(), given.value, commonName, now) else View() == old(View())
    {
      if given.None? {
        return Unknown;
      }
      VerifyScepIs(View(), given.value, commonName, now);
      hide Inv, IsAccepted, IsMisnamed, Leaves, VerifyScep;
      outcome := VerifyChallenge(given.value, commonName, now);
    }

    method VerifyChallenge(challenge: Token, commonName: Token, now: Time) returns (outcome: Outcome)
      requires Valid()
      modifies this
      ensures Valid() && (View(), outcome) == VerifyScep(old(View()), challenge, commonName, now)
    {
      VerifyScepKeeps(View(), challenge, commonName, now);
      hide Inv;
      var row := EnrollmentByChallenge(challenge);
      if row.None? {
        outcome := VerifyRenewal(challenge, commonName, now);
        return;
      }
      var id := row.value;
      var e := es[id];
      if e.revokedAt.Some? || e.enrolledAt.Some? || e.scepAt.Some? || e.expiresAt <= now {
        return Unknown;
      }
      if commonName != e.ref {
        if es[id].revokedAt.None? {
          es := es[id := es[id].(revokedAt := Some(now))];
        }
        return CnMismatch;
      }
      if es[id].scepAt.None? && es[id].revokedAt.None? && es[id].enrolledAt.None? {
        es := es[id := es[id].(scepAt := Some(now))];
        return Ok;
      }
      return Unknown;
    }

    method VerifyRenewal(challenge: Token, commonName: Token, now: Time) returns (outcome: Outcome)
      requires Valid() && ByChallenge(es, challenge).None?
      modifies this`bs
      ensures (View(), outcome) == VerifyScep(old(View()), challenge, commonName, now)
    {
      RenewalIsUnique(View(), challenge);
      hide Inv, MdmInvariant.Unique;
      if d: nat :| d in bs && bs[d].renewChallenge == Some(challenge) {
        assert ByRenewal(bs, challenge) == Some(d);
        var b := bs[d];
        if b.enrollment !in es || b.renewScepAt.Some? || b.renewStartedAt.None?
           || b.renewStartedAt.value + RENEW_CHALLENGE_TTL_S <= now {
          return Unknown;
        }
        if commonName != es[b.enrollment].ref {
          bs := bs[d := b.(renewChallenge := None)];
          return CnMismatch;
        }
        if bs[d].renewScepAt.None? && bs[d].renewChallenge == Some(challenge) {
          bs := bs[d := b.(renewScepAt := Some(now))];
          return Ok;
        }
        return Unknown;
      }
      return Unknown;
    }

    method BeginRenewal(d: nat, now: Time) returns (challenge: Option<Token>)
      requires Valid()
      modifies this`bs, this`nextToken
      ensures Valid() && View() == StartRenewal(old(View()), d, now)
      ensures (challenge.Some? <==> CanRenew(old(View()), d)) && (challenge.Some? ==> d in bs && bs[d].renewChallenge == challenge)
    {
      ghost var t0 := View();
      StartRenewalKeeps(t0, d, now);
      hide Inv;
      challenge := None;
      if d in bs && bs[d].enrollment in es && bs[d].checkedOutAt.None? {
        var c := FreshToken();
        bs := bs[d := bs[d].(renewChallenge := Some(c), renewStartedAt := Some(now), renewScepAt := None,
                             renewDoneAt := None, renewCommand := "")];
        challenge := Some(c);
      }
      assert View() == StartRenewal(t0, d, now);
    }

    method FinishRenewalOf(d: nat, command: string, ok: bool, now: Time) returns (was: bool)
      requires Valid()
      modifies this`bs
      ensures Valid() && View() == FinishRenewal(old(View()), d, command, ok, now)
      ensures was <==> d in old(bs) && old(bs)[d].renewCommand == command
    {
      ghost var t0 := View();
      FinishRenewalKeeps(t0, d, command, ok, now);
      hide Inv;
      was := d in bs && bs[d].renewCommand == command;
      if was {
        var b := bs[d];
        if ok {
          var issued := if b.renewScepAt.Some? then b.renewScepAt.value else now;
          bs := bs[d := b.(renewChallenge := None, renewDoneAt := Some(now), issuedAt := Some(issued))];
        } else {
          bs := bs[d := b.(renewChallenge := None)];
        }
      }
      assert View() == FinishRenewal(t0, d, command, ok, now);
    }

    // The webhook drops an event without a UDID before it gets here.
    method OnAuthenticate(udid: string, ref: Token) returns (bound: bool)
      requires Valid() && udid != ""
      modifies this
      ensures Valid() && View() == Authenticate(old(View()), udid, ref)
      ensures bound <==> exists id :: Admits(old(View()), id, ref, udid)
    {
      AuthenticateKeeps(View(), udid, ref);
      BindableIs(View(), ref, udid);
      hide Inv, Admits, Certified;
      var row := BindableFor(ref);
      if row.None? {
        return false;
      }
      var e := es[row.value];
      if e.udid != "" && e.udid != udid {
        return false;
      }
      es := es[row.value := e.(udid := udid)];
      return true;
    }

    method OnTokenUpdate(udid: string, ref: Token, now: Time) returns (device: Option<nat>)
      requires Valid() && udid != ""
      modifies this`es, this`bs
      ensures Valid() && View() == TokenUpdate(old(View()), udid, ref, now)
      ensures forall id :: Admits(old(View()), id, ref, udid) ==> device == Some(old(es)[id].device)
      ensures (forall id :: !Certified(old(View()), id, ref)) ==>
                forall d :: device == Some(d) <==> d in old(bs) && old(bs)[d].udid == udid
      ensures device.Some? ==> device.value in bs && bs[device.value].udid == udid
    {
      hide Inv, ByUdid, Bindable, Admits, Certified;
      ghost var t0 := View();
      TokenUpdateKeeps(t0, udid, ref, now);
      BindableIs(t0, ref, udid);
      UdidIs(t0, udid);
      device := None;
      var row := BindableFor(ref);
      if row.None? {
        device := DeviceForUdid(udid);
        if device.Some? {
          bs := bs[device.value := bs[device.value].(lastSeenAt := now)];
        }
      } else if es[row.value].udid == "" || es[row.value].udid == udid {
        var id := row.value;
        var e := es[id];
        // One UDID is one row: a phone enrolled again for another device moves over.
        bs := map d | d in bs && (bs[d].udid != udid || d == e.device) :: bs[d];
        if e.device in bs {
          var b := bs[e.device];
          bs := bs[e.device := b.(udid := udid, enrollment := id, lastSeenAt := now, checkedOutAt := None,
                                  enrolledAt := if b.enrollment == id then b.enrolledAt else now)];
        } else {
          bs := bs[e.device := Binding(udid, id, now, now, None, None, None, None, None, None, "")];
        }
        es := es[id := e.(udid := udid, enrolledAt := if e.enrolledAt.Some? then e.enrolledAt else Some(now))];
        device := Some(e.device);
      }
      assert View() == TokenUpdate(t0, udid, ref, now);
    }

    method OnCheckOut(udid: string, now: Time) returns (device: Option<nat>)
      requires Valid()
      modifies this
      ensures Valid() && View() == CheckOut(old(View()), udid, now)
      ensures forall d :: device == Some(d) <==> d in old(bs) && old(bs)[d].udid == udid
    {
      CheckOutKeeps(View(), udid, now);
      UdidIs(View(), udid);
      hide Inv;
      device := DeviceForUdid(udid);
      if device.Some? {
        bs := bs[device.value := bs[device.value].(checkedOutAt := Some(now), lastSeenAt := now)];
      }
    }
  }

  lemma LinkDecides(t: Tables, link: Token, now: Time)
    requires Inv(t)
    ensures (exists id :: id in t.es && t.es[id].link == link && MayDownload(t.es[id], now)) <==>
            ByLink(t.es, link).Some? && MayDownload(t.es[ByLink(t.es, link).value], now)
  {
  }

  lemma BindableIs(t: Tables, ref: Token, udid: string)
    requires Inv(t)
    ensures forall id :: Admits(t, id, ref, udid) <==> Bindable(t.es, ref) == Some(id) && t.es[id].udid in {"", udid}
    ensures (forall id :: !Certified(t, id, ref)) <==> Bindable(t.es, ref).None?
  {
    var r := ByRef(t.es, ref);
    if r.Some? { assert forall id :: id in t.es && t.es[id].ref == ref ==> id == r.value; }
    if Bindable(t.es, ref).Some? { assert Certified(t, r.value, ref); }
    hide ByRef;
  }

  lemma UdidIs(t: Tables, udid: string)
    requires Inv(t)
    ensures forall d :: ByUdid(t.bs, udid) == Some(d) <==> d in t.bs && t.bs[d].udid == udid
  {
  }

  lemma RenewalIsUnique(t: Tables, c: Token)
    requires Inv(t)
    ensures forall d :: d in t.bs && t.bs[d].renewChallenge == Some(c) ==> ByRenewal(t.bs, c) == Some(d)
  {
  }
}
