// Which certificate requests are accepted, in terms of the two tables.
module MdmRequests {
  import opened Wrappers
  import opened Mdm
  import opened MdmInvariant
  import opened MdmRuns

  // ---- a request in one piece ------------------------------------------------------------

  // An open, uncertified and unexpired enrollment with this challenge.
  ghost predicate Awaits(t: Tables, id: nat, c: Token, now: Time) {
    && id in t.es && t.es[id].challenge == Some(c)
    && t.es[id].revokedAt.None? && t.es[id].enrolledAt.None? && t.es[id].scepAt.None? && t.es[id].expiresAt > now
  }

  // A renewal under way with this challenge, not yet used, started less than seven days ago.
  ghost predicate Renews(t: Tables, d: nat, c: Token, now: Time) {
    && d in t.bs && t.bs[d].renewChallenge == Some(c) && t.bs[d].enrollment in t.es
    && t.bs[d].renewScepAt.None? && t.bs[d].renewStartedAt.Some? && t.bs[d].renewStartedAt.value + 7 * 86400 > now
  }

  ghost predicate NobodyHas(t: Tables, c: Token) { forall id :: id in t.es ==> t.es[id].challenge != Some(c) }

  // Accepted: by the enrollment or the renewal the challenge belongs to, and by its name.
  ghost predicate IsAccepted(t: Tables, c: Token, cn: Token, now: Time) {
    || (exists id :: Awaits(t, id, c, now) && t.es[id].ref == cn)
    || (NobodyHas(t, c) && exists d :: Renews(t, d, c, now) && t.es[t.bs[d].enrollment].ref == cn)
  }

  // Refused for the name alone.
  ghost predicate IsMisnamed(t: Tables, c: Token, cn: Token, now: Time) {
    || (exists id :: Awaits(t, id, c, now) && t.es[id].ref != cn)
    || (NobodyHas(t, c) && exists d :: Renews(t, d, c, now) && t.es[t.bs[d].enrollment].ref != cn)
  }

  // What it leaves behind: the certificate's time where it is accepted; a revoked enrollment,
  // or a renewal without its challenge, where only the name is wrong; nothing otherwise.
  ghost predicate Leaves(t: Tables, after: Tables, c: Token, cn: Token, now: Time) {
    && after.nextId == t.nextId && after.nextToken == t.nextToken
    && after.es.Keys == t.es.Keys && after.bs.Keys == t.bs.Keys
    && (forall id :: id in t.es ==>
          after.es[id] ==
            if !Awaits(t, id, c, now) then t.es[id]
            else if t.es[id].ref == cn then t.es[id].(scepAt := Some(now))
            else t.es[id].(revokedAt := Some(now)))
    && (forall d :: d in t.bs ==>
          after.bs[d] ==
            if !NobodyHas(t, c) || !Renews(t, d, c, now) then t.bs[d]
            else if t.es[t.bs[d].enrollment].ref == cn then t.bs[d].(renewScepAt := Some(now))
            else t.bs[d].(renewChallenge := None))
  }

  lemma VerifyScepIs(t: Tables, c: Token, cn: Token, now: Time)
    requires Unique(t)
    ensures var r := VerifyScep(t, c, cn, now);
            && (r.1 == Ok <==> IsAccepted(t, c, cn, now))
            && (r.1 == CnMismatch <==> IsMisnamed(t, c, cn, now))
            && Leaves(t, r.0, c, cn, now)
  {
    var e := ByChallenge(t.es, c);
    if e.Some? {
      OnlyRow(t, e.value, c, now);
      assert !NobodyHas(t, c);
    } else {
      assert NobodyHas(t, c);
      RenewalIs(t, c, cn, now);
    }
    hide ByRenewal, ByChallenge;
  }

  lemma OnlyRow(t: Tables, id: nat, c: Token, now: Time)
    requires Unique(t) && id in t.es && t.es[id].challenge == Some(c)
    ensures forall i :: Awaits(t, i, c, now) ==> i == id
  {
  }

  lemma RenewalIs(t: Tables, c: Token, cn: Token, now: Time)
    requires Unique(t) && ByChallenge(t.es, c).None? && NobodyHas(t, c)
    ensures var r := VerifyScep(t, c, cn, now);
            && (r.1 == Ok <==> exists d :: Renews(t, d, c, now) && t.es[t.bs[d].enrollment].ref == cn)
            && (r.1 == CnMismatch <==> exists d :: Renews(t, d, c, now) && t.es[t.bs[d].enrollment].ref != cn)
            && Leaves(t, r.0, c, cn, now)
  {
    hide ByChallenge;
    var b := ByRenewal(t.bs, c);
    if b.Some? {
      OnlyRenewal(t, b.value, c, now);
      var d := b.value;
      assert Renews(t, d, c, now) <==>
        !(t.bs[d].enrollment !in t.es || t.bs[d].renewScepAt.Some? || t.bs[d].renewStartedAt.None?
          || t.bs[d].renewStartedAt.value + RENEW_CHALLENGE_TTL_S <= now);
    }
    hide ByRenewal, NobodyHas, Unique;
  }

  lemma OnlyRenewal(t: Tables, d: nat, c: Token, now: Time)
    requires Unique(t) && d in t.bs && t.bs[d].renewChallenge == Some(c)
    ensures forall i :: Renews(t, i, c, now) ==> i == d
  {
  }

  // A link made for ttl hours: by then its certificate has been asked for, or never will be.
  lemma ExpiredIsRefused(t: Tables, id: nat, c: Token, cn: Token, now: Time)
    requires Unique(t) && id in t.es && t.es[id].challenge == Some(c) && t.es[id].expiresAt <= now
    ensures VerifyScep(t, c, cn, now) == (t, Unknown)
  {
    hide ByRenewal;
  }

  // ---- requests that interleave ----------------------------------------------------------

  // Move j of the run is the read of request k, and finds this enrollment waiting for it.
  ghost predicate ReadAt(s: System, ms: seq<Timed>, j: int, k: nat, id: nat, named: bool) {
    && 0 <= j < |ms| && ms[j].m.Request? && ms[j].m.k == k
    && Awaits(RunSys(s, ms[..j]).t, id, ms[j].m.challenge, ms[j].now)
    && named == (RunSys(s, ms[..j]).t.es[id].ref == ms[j].m.cn)
  }

  // The read of a request in flight, the last of its key before move n.
  ghost predicate TakenOff(s: System, ms: seq<Timed>, n: nat, k: nat, id: nat, named: bool) {
    n <= |ms| && exists j :: ReadAt(s, ms, j, k, id, named) && j < n && forall i :: j < i < n ==> !(ms[i].m.Request? && ms[i].m.k == k)
  }

  lemma {:induction false} RunSnoc(s: System, ms: seq<Timed>, n: nat)
    requires n < |ms|
    ensures RunSys(s, ms[..n + 1]) == Next(RunSys(s, ms[..n]), ms[n].m, ms[n].now)
    decreases n
  {
    hide Next;
    if n == 0 {
      assert ms[..1] == [ms[0]] && [ms[0]][1..] == [] && ms[..0] == [];
    } else {
      assert ms[..n + 1][0] == ms[0] && ms[..n + 1][1..] == ms[1..][..n] && ms[..n][0] == ms[0] && ms[..n][1..] == ms[1..][..n - 1];
      RunSnoc(Next(s, ms[0].m, ms[0].now), ms[1..], n - 1);
    }
  }

  lemma ReadTakesOff(s: System, k: nat, c: Token, cn: Token, now: Time)
    ensures var r := Next(s, Request(k, c, cn), now);
            k in r.flights && r.flights[k].AtEnrollment? ==>
              Awaits(s.t, r.flights[k].id, c, now) && r.flights[k].named == (s.t.es[r.flights[k].id].ref == cn)
  {
    hide ByRenewal;
  }

  lemma OtherFlights(s: System, m: Move, now: Time, k: nat)
    requires !(m.Request? && m.k == k)
    ensures var r := Next(s, m, now);
            k in r.flights && r.flights[k].AtEnrollment? ==> k in s.flights && r.flights[k] == s.flights[k]
  {
    hide Apply, ScepRead, ByRenewal;
  }

  lemma {:induction false} FlightsWereRead(s: System, ms: seq<Timed>, n: nat, k: nat)
    requires s.flights == map[] && n <= |ms|
    ensures var t := RunSys(s, ms[..n]);
            k in t.flights && t.flights[k].AtEnrollment? ==> TakenOff(s, ms, n, k, t.flights[k].id, t.flights[k].named)
    decreases n
  {
    hide Next, Awaits;
    if n == 0 {
      assert ms[..0] == [];
    } else {
      var before, t := RunSys(s, ms[..n - 1]), RunSys(s, ms[..n]);
      var m := ms[n - 1];
      RunSnoc(s, ms, n - 1);
      FlightsWereRead(s, ms, n - 1, k);
      if k in t.flights && t.flights[k].AtEnrollment? {
        var id, named := t.flights[k].id, t.flights[k].named;
        if m.m.Request? && m.m.k == k {
          ReadTakesOff(before, k, m.m.challenge, m.m.cn, m.now);
          assert ReadAt(s, ms, n - 1, k, id, named);
        } else {
          OtherFlights(before, m.m, m.now, k);
          var j :| ReadAt(s, ms, j, k, id, named) && j < n - 1 && forall i :: j < i < n - 1 ==> !(ms[i].m.Request? && ms[i].m.k == k);
        }
        assert TakenOff(s, ms, n, k, id, named);
      }
    }
  }

  // However requests interleave: an enrollment's count of accepted challenges only goes up at
  // the end of a request that named it, and that had read its row, by its challenge, while it
  // was open, uncertified and before it expired.
  lemma AcceptedWasReadInTime(s: System, ms: seq<Timed>, n: nat)
    requires s.flights == map[] && n < |ms|
    ensures var t := RunSys(s, ms[..n]);
            var after := Next(t, ms[n].m, ms[n].now);
            after.accepted != t.accepted ==>
              && ms[n].m.Continue?
              && exists id :: TakenOff(s, ms, n, ms[n].m.k, id, true) && after.accepted == t.accepted[id := t.accepted[id] + 1]
  {
    var t := RunSys(s, ms[..n]);
    var m, now := ms[n].m, ms[n].now;
    if Next(t, m, now).accepted != t.accepted {
      OnlyAtTheEnd(t, m, now);
      FlightsWereRead(s, ms, n, m.k);
    }
    hide Next, RunSys, TakenOff;
  }

  lemma OnlyAtTheEnd(t: System, m: Move, now: Time)
    requires Next(t, m, now).accepted != t.accepted
    ensures m.Continue? && m.k in t.flights && t.flights[m.k].AtEnrollment? && t.flights[m.k].named
    ensures var id := t.flights[m.k].id; Next(t, m, now).accepted == t.accepted[id := t.accepted[id] + 1]
  {
    hide Apply, ByRenewal;
  }
}
