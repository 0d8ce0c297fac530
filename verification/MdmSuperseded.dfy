// A new download ends the challenge of the one before; a request that read the row earlier
// does not notice.
module MdmSuperseded {
  import opened Wrappers
  import opened Mdm
  import opened MdmInvariant
  import opened MdmRuns

  // A download of the enrollment gets its challenge.
  ghost predicate Downloads(s: System, m: Move, now: Time, id: nat) {
    m.Other? && m.e.EDownload? && ByLink(s.t.es, m.e.link) == Some(id) && MayDownload(s.t.es[id], now)
  }

  ghost predicate DownloadedIn(s: System, ms: seq<Timed>, id: nat)
    decreases |ms|
  {
    ms != [] && (Downloads(s, ms[0].m, ms[0].now, id) || DownloadedIn(Next(s, ms[0].m, ms[0].now), ms[1..], id))
  }

  // Requests are told apart by their key.
  predicate IsAbout(m: Move, k: nat) { (m.Request? || m.Continue?) && m.k == k }

  lemma ApplyChallenge(t: Tables, e: Event, now: Time, id: nat)
    requires id in t.es && id < t.nextId && id in Apply(t, e, now).es
    ensures t.nextToken <= Apply(t, e, now).nextToken
    ensures !(e.EDownload? && ByLink(t.es, e.link) == Some(id) && MayDownload(t.es[id], now)) ==>
              Apply(t, e, now).es[id].challenge == t.es[id].challenge
    ensures e.EDownload? && ByLink(t.es, e.link) == Some(id) && MayDownload(t.es[id], now) ==>
              Apply(t, e, now).es[id].challenge == Some(t.nextToken)
  {
    hide ByLink, ByRef, ByUdid;
  }

  lemma AccessChallenge(t: Tables, f: Flight, id: nat)
    requires id in t.es
    ensures var t' := ScepAdvance(t, f).0;
            t'.nextToken == t.nextToken && t'.nextId == t.nextId && id in t'.es && t'.es[id].challenge == t.es[id].challenge
  {
    hide ByRenewal;
  }

  // A challenge stands until a later download, and does not come back.
  lemma NextChallenge(s: System, m: Move, now: Time, id: nat, c: Token)
    requires id in s.t.es && id < s.t.nextId && c < s.t.nextToken && id in Next(s, m, now).t.es
    ensures c < Next(s, m, now).t.nextToken
    ensures Next(s, m, now).t.es[id].challenge == Some(c) <==> s.t.es[id].challenge == Some(c) && !Downloads(s, m, now, id)
  {
    hide Apply, ScepRead, ScepAdvance, ByLink;
    match m {
      case Other(e) => ApplyChallenge(s.t, e, now, id);
      case Request(_, _, _) =>
      case Continue(k) => if k in s.flights { AccessChallenge(s.t, s.flights[k], id); }
    }
  }

  lemma {:induction false} ChallengeStandsIff(s: System, ms: seq<Timed>, id: nat, c: Token)
    requires SysInv(s) && id in s.t.es && c < s.t.nextToken && id in RunSys(s, ms).t.es
    ensures RunSys(s, ms).t.es[id].challenge == Some(c) <==> s.t.es[id].challenge == Some(c) && !DownloadedIn(s, ms, id)
    decreases |ms|
  {
    hide SysInv, Next, Downloads;
    if ms != [] {
      var s' := Next(s, ms[0].m, ms[0].now);
      NextKeeps(s, ms[0].m, ms[0].now);
      StillThere(s, ms, id);
      NextChallenge(s, ms[0].m, ms[0].now, id, c);
      ChallengeStandsIff(s', ms[1..], id, c);
    }
  }

  // What is there in the end was there all along.
  lemma StillThere(s: System, ms: seq<Timed>, id: nat)
    requires SysInv(s) && ms != [] && id in s.t.es && id in RunSys(s, ms).t.es
    ensures id < s.t.nextId && id in Next(s, ms[0].m, ms[0].now).t.es
  {
    var s' := Next(s, ms[0].m, ms[0].now);
    UniqueIsBelow(s.t);
    NextKeeps(s, ms[0].m, ms[0].now);
    NextLater(s, ms[0].m, ms[0].now);
    RunLater(s', ms[1..]);
    hide Next, Later, SysInv, Unique;
  }

  lemma {:induction false} FlightStays(s: System, ms: seq<Timed>, k: nat)
    requires k in s.flights && forall m :: m in ms ==> !IsAbout(m.m, k)
    ensures k in RunSys(s, ms).flights && RunSys(s, ms).flights[k] == s.flights[k]
    decreases |ms|
  {
    hide Next, IsAbout;
    if ms != [] {
      assert ms[0] in ms;
      OtherFlight(s, ms[0].m, ms[0].now, k);
      FlightStays(Next(s, ms[0].m, ms[0].now), ms[1..], k);
    }
  }

  lemma OtherFlight(s: System, m: Move, now: Time, k: nat)
    requires k in s.flights && !IsAbout(m, k)
    ensures k in Next(s, m, now).flights && Next(s, m, now).flights[k] == s.flights[k]
  {
    hide Apply, ScepRead, ScepAdvance;
  }

  // A request finds an open enrollment by its challenge, and goes on later. It is accepted
  // exactly if it names the enrollment and that is still open and without a certificate;
  // whether the challenge is still the one on the row makes no difference, and it is exactly
  // if nothing was downloaded in between.
  lemma SupersededIsAcceptedIff(s: System, k: nat, c: Token, cn: Token, at: Time, ms: seq<Timed>, now: Time)
    requires SysInv(s)
    requires var r := Next(s, Request(k, c, cn), at); k in r.flights && r.flights[k].AtEnrollment?
    requires forall m :: m in ms ==> !IsAbout(m.m, k)
    ensures var r := Next(s, Request(k, c, cn), at);
            var id, t := r.flights[k].id, RunSys(r, ms);
            && (Next(t, Continue(k), now).accepted == t.accepted[id := t.accepted[id] + 1] <==>
                cn == s.t.es[id].ref && id in t.t.es && t.t.es[id].scepAt.None? && IsOpen(t.t.es[id]))
            && (id in t.t.es ==> (t.t.es[id].challenge == Some(c) <==> !DownloadedIn(r, ms, id)))
  {
    var r := Next(s, Request(k, c, cn), at);
    ReadsTheRow(s, k, c, cn, at);
    NextKeeps(s, Request(k, c, cn), at);
    hide SysInv, RunSys, Next;
    var id, t := r.flights[k].id, RunSys(r, ms);
    FlightStays(r, ms, k);
    AcceptedIff(t, k, now);
    if id in t.t.es { ChallengeStandsIff(r, ms, id, c); }
  }

  lemma ReadsTheRow(s: System, k: nat, c: Token, cn: Token, at: Time)
    requires SysInv(s)
    requires var r := Next(s, Request(k, c, cn), at); k in r.flights && r.flights[k].AtEnrollment?
    ensures var r := Next(s, Request(k, c, cn), at);
            var f := r.flights[k];
            && r.t == s.t && f.id in s.t.es && s.t.es[f.id].challenge == Some(c) && c < s.t.nextToken
            && f.named == (cn == s.t.es[f.id].ref)
  {
    hide ByRenewal;
  }

  lemma AcceptedIff(t: System, k: nat, now: Time)
    requires k in t.flights && t.flights[k].AtEnrollment?
    ensures var f := t.flights[k];
            Next(t, Continue(k), now).accepted == t.accepted[f.id := t.accepted[f.id] + 1] <==>
            f.named && f.id in t.t.es && t.t.es[f.id].scepAt.None? && IsOpen(t.t.es[f.id])
  {
    var f := t.flights[k];
    assert t.accepted[f.id := t.accepted[f.id] + 1][f.id] != t.accepted[f.id];
  }

  // Such a run: a request reads the row, the profile is downloaded once more, and the request
  // is accepted on the challenge of the first download.
  lemma OldChallengeIsAccepted()
    ensures var s1 := Next(System(EMPTY, map[], multiset{}, multiset{}, map[]), Other(ECreate(7, 24)), 1);
            var s2 := Next(s1, Other(EDownload(1)), 1);
            var s3 := Next(s2, Request(0, 2, 0), 1);
            var s5 := Next(Next(s3, Other(EDownload(1)), 1), Continue(0), 1);
            0 in s5.t.es && s5.t.es[0].challenge == Some(3) && s5.t.es[0].scepAt.Some? && s5.accepted[0] == 1
  {
    RaceDownloads();
    OneRow(T2.es, 0, E2);
    var s3 := Next(S2, Request(0, 2, 0), 1);
    assert s3 == S2.(flights := map[0 := AtEnrollment(0, true, 1)]);
    var e4 := E2.(challenge := Some(3), downloads := 2);
    var s4 := Next(s3, Other(EDownload(1)), 1);
    assert s4.t.es == map[0 := e4] && s4.flights == s3.flights && s4.accepted == multiset{};
    hide ByLink, ByChallenge, ByRef, ByRenewal;
  }
}
