// The gate answers from a cache and from lookups that take time: when it decides as the jobs
// table would, and what a deleted device can still get past it.
module GateCache {
  import opened Text
  import opened Wrappers
  import L = SecretLines
  import opened JobsTable
  import opened AgentSocket
  import opened Isolation
  import J = Jobs

  predicate IsConnOf(w: World, c: nat, d: nat) { c in w.conns && w.conns[c].device == d }

  // What a device's handlers take for their own the table still gives to it.
  ghost predicate AgreesFor(w: World, d: nat) {
    forall c, id :: IsConnOf(w, c, d) && Believes(w.conns[c], id) ==> IsOwn(w.server.rows, id, d)
  }

  // No device ever gets past the gate to a job it did not own.
  lemma OnlyOwnJobsPass(w: World, c: nat, id: nat)
    requires Inv(w) && c in w.conns && Believes(w.conns[c], id)
    ensures id in w.owners && w.owners[id] == w.conns[c].device
  {
    assert Holds(w.conns[c], id);
  }

  // The device's jobs are deleted while a handler of it takes one of them for its own.
  ghost predicate MeetsBelief(w: World, e: Event, d: nat) {
    e == DeleteJobs(d) && exists c, id :: IsConnOf(w, c, d) && Believes(w.conns[c], id)
  }

  // One step parts handlers and table exactly if it is that.
  lemma StepAgreesIff(rule: L.LineRule, w: World, e: Event, d: nat)
    requires Inv(w) && AgreesFor(w, d)
    ensures AgreesFor(Step(rule, w, e), d) <==> !MeetsBelief(w, e, d)
  {
    if e == DeleteJobs(d) {
      DeletionAgreesIff(rule, w, d);
    } else {
      assert !MeetsBelief(w, e, d) by { NothingIsMet(w, e, d); }
      OtherStepAgrees(rule, w, e, d);
    }
    hide Inv, AgreesFor, MeetsBelief, Step;
  }

  lemma NothingIsMet(w: World, e: Event, d: nat)
    requires e != DeleteJobs(d)
    ensures !MeetsBelief(w, e, d)
  {
  }

  lemma DeletionAgreesIff(rule: L.LineRule, w: World, d: nat)
    requires AgreesFor(w, d)
    ensures AgreesFor(Step(rule, w, DeleteJobs(d)), d) <==> !MeetsBelief(w, DeleteJobs(d), d)
  {
    var after := Step(rule, w, DeleteJobs(d));
    if c, id :| IsConnOf(w, c, d) && Believes(w.conns[c], id) {
      assert IsOwn(w.server.rows, id, d);
      assert after.conns[c] == w.conns[c] && IsConnOf(after, c, d) && !IsOwn(after.server.rows, id, d);
    }
    assert after.conns == w.conns;
  }

  lemma OtherStepAgrees(rule: L.LineRule, w: World, e: Event, d: nat)
    requires Inv(w) && AgreesFor(w, d) && e != DeleteJobs(d)
    ensures AgreesFor(Step(rule, w, e), d)
  {
    StepForwards(rule, w, e, d);
    hide Inv, Step, IsOwn, Believes;
  }

  // The device's rows stay, whatever else happens, until they are deleted.
  lemma RowsStay(rule: L.LineRule, w: World, e: Event, d: nat)
    requires Inv(w) && e != DeleteJobs(d)
    ensures forall id :: IsOwn(w.server.rows, id, d) ==> IsOwn(Step(rule, w, e).server.rows, id, d)
  {
    hide Filtered, Fails, Holds;
    if e.Done? && e.c in w.conns && w.conns[e.c].hand.Doing? {
      var k := w.conns[e.c];
      EffectOnRows(w.server, k.device, k.hand.m, k.hand.p);
      assert Step(rule, w, e).server == Effect(w.server, k.device, k.hand.m, k.hand.p);
      hide Effect;
    } else {
      hide Effect;
    }
  }

  // What a handler takes for its own after a step, it did before, or the table has just said so.
  lemma StepForwards(rule: L.LineRule, w: World, e: Event, d: nat)
    requires Inv(w) && e != DeleteJobs(d)
    ensures forall c, id :: IsConnOf(Step(rule, w, e), c, d) && Believes(Step(rule, w, e).conns[c], id) ==>
              (IsConnOf(w, c, d) && Believes(w.conns[c], id)) || IsOwn(w.server.rows, id, d)
    ensures forall id :: IsOwn(w.server.rows, id, d) ==> IsOwn(Step(rule, w, e).server.rows, id, d)
  {
    RowsStay(rule, w, e, d);
    hide Filtered, Fails, Holds, Effect, Fed, SweptServer, ServerWithout, OnRow;
  }

  ghost predicate AgreesThroughout(rule: L.LineRule, w: World, es: seq<Event>, d: nat)
    decreases |es|
  {
    AgreesFor(w, d) && (es != [] ==> AgreesThroughout(rule, Step(rule, w, es[0]), es[1..], d))
  }

  ghost predicate MeetsABelief(rule: L.LineRule, w: World, es: seq<Event>, d: nat)
    decreases |es|
  {
    es != [] && (MeetsBelief(w, es[0], d) || MeetsABelief(rule, Step(rule, w, es[0]), es[1..], d))
  }

  // Over any run, the device's handlers and the table agree at every moment exactly if no
  // deletion of its jobs meets one that is cached, or whose lookup has already read the row.
  lemma {:induction false} AgreesThroughoutIff(rule: L.LineRule, w: World, es: seq<Event>, d: nat)
    requires Inv(w) && AgreesFor(w, d)
    ensures AgreesThroughout(rule, w, es, d) <==> !MeetsABelief(rule, w, es, d)
    decreases |es|
  {
    hide Inv, AgreesFor, Step, MeetsBelief;
    if es != [] {
      var w' := Step(rule, w, es[0]);
      StepKeepsInv(rule, w, es[0]);
      StepAgreesIff(rule, w, es[0], d);
      if AgreesFor(w', d) {
        AgreesThroughoutIff(rule, w', es[1..], d);
      } else {
        Parted(rule, w', es[1..], d);
      }
    }
  }

  lemma Parted(rule: L.LineRule, w: World, es: seq<Event>, d: nat)
    requires !AgreesFor(w, d)
    ensures !AgreesThroughout(rule, w, es, d)
  {
  }

  // ---- reports on jobs that are gone -----------------------------------------------------

  // The step lets a report of device d past the gate.
  predicate Passes(w: World, e: Event, d: nat) {
    || (e.Received? && Listens(w, e.c) && w.conns[e.c].device == d && e.m.id in w.conns[e.c].owned)
    || (e.Resumed? && IsConnOf(w, e.c, d) && w.conns[e.c].hand.Answered? && w.conns[e.c].hand.mine)
  }

  // On a job the table does not give to d.
  predicate GonePasses(w: World, e: Event, d: nat) {
    Passes(w, e, d) && !IsOwn(w.server.rows, if e.Received? then e.m.id else w.conns[e.c].hand.m.id, d)
  }

  ghost predicate GonePassesIn(rule: L.LineRule, w: World, es: seq<Event>, d: nat)
    decreases |es|
  {
    es != [] && (GonePasses(w, es[0], d) || GonePassesIn(rule, Step(rule, w, es[0]), es[1..], d))
  }

  // While they agree, the gate decides as the table would.
  lemma {:induction false} NoneGonePasses(rule: L.LineRule, w: World, es: seq<Event>, d: nat)
    requires AgreesThroughout(rule, w, es, d)
    ensures !GonePassesIn(rule, w, es, d)
    decreases |es|
  {
    hide Step;
    if es != [] {
      var e := es[0];
      if Passes(w, e, d) {
        assert IsConnOf(w, e.c, d) && Believes(w.conns[e.c], if e.Received? then e.m.id else w.conns[e.c].hand.m.id);
      }
      NoneGonePasses(rule, Step(rule, w, e), es[1..], d);
    }
  }

  // ---- deleting a device: its socket is closed first -------------------------------------

  // Only the registered socket of the device is open: any older one has been closed.
  ghost predicate NoOlderOpen(w: World, d: nat) {
    forall c :: IsConnOf(w, c, d) && w.conns[c].open ==> d in w.registered && w.registered[d] == c
  }

  // All its sockets are closed, and their handlers still busy.
  ghost predicate AllClosed(w: World, d: nat) { forall c :: IsConnOf(w, c, d) ==> !w.conns[c].open }

  lemma CloseReachesAll(rule: L.LineRule, w: World, d: nat)
    requires Inv(w) && NoOlderOpen(w, d)
    ensures AllClosed(Step(rule, w, CloseSocket(d, true)), d)
  {
    hide Holds;
  }

  lemma StaysClosed(rule: L.LineRule, w: World, e: Event, d: nat)
    requires AllClosed(w, d) && !(e.Connect? && e.device == d)
    ensures AllClosed(Step(rule, w, e), d)
  {
    hide Filtered, Fails, Effect, Fed, SweptServer, ServerWithout, OnRow;
  }

  lemma {:induction false} StaysAllClosed(rule: L.LineRule, w: World, es: seq<Event>, d: nat)
    requires AllClosed(w, d) && forall e :: e in es ==> !(e.Connect? && e.device == d)
    ensures AllClosed(Run(rule, w, es), d)
    decreases |es|
  {
    hide AllClosed, Step;
    if es != [] {
      StaysClosed(rule, w, es[0], d);
      StaysAllClosed(rule, Step(rule, w, es[0]), es[1..], d);
    }
  }

  // A handler that has been told of a row before it went.
  ghost predicate IsStaleAnswer(w: World, c: nat, d: nat) {
    && IsConnOf(w, c, d) && w.conns[c].hand.Answered? && w.conns[c].hand.mine
    && !IsOwn(w.server.rows, w.conns[c].hand.m.id, d)
  }

  // It resumes, and has not been cut off before.
  ghost predicate Resumes(es: seq<Event>, c: nat) {
    es != [] && (es[0] == Resumed(c) || (!(es[0].Dropped? && es[0].c == c) && Resumes(es[1..], c)))
  }

  // Open sockets know what the table knows.
  ghost predicate OpenAgree(w: World, d: nat) {
    forall c, id :: IsConnOf(w, c, d) && w.conns[c].open && Believes(w.conns[c], id) ==> IsOwn(w.server.rows, id, d)
  }

  lemma OpenAgreeStays(rule: L.LineRule, w: World, e: Event, d: nat)
    requires Inv(w) && OpenAgree(w, d) && e != DeleteJobs(d)
    ensures OpenAgree(Step(rule, w, e), d)
  {
    StepForwards(rule, w, e, d);
    OnlyNewOnesOpen(rule, w, e);
    hide Inv, Step, IsOwn, Believes;
  }

  // No socket opens again, and a new one knows nothing.
  lemma OnlyNewOnesOpen(rule: L.LineRule, w: World, e: Event)
    ensures forall c :: c in Step(rule, w, e).conns && Step(rule, w, e).conns[c].open ==>
              if c in w.conns then w.conns[c].open && w.conns[c].device == Step(rule, w, e).conns[c].device
              else forall id :: !Believes(Step(rule, w, e).conns[c], id)
  {
    hide Filtered, Fails, Effect, Fed, SweptServer, ServerWithout, OnRow;
  }

  lemma OnlyAStaleAnswer(w: World, e: Event, d: nat)
    requires OpenAgree(w, d)
    ensures GonePasses(w, e, d) <==> e.Resumed? && IsStaleAnswer(w, e.c, d)
  {
    if e.Received? && Passes(w, e, d) {
      assert IsConnOf(w, e.c, d) && w.conns[e.c].open && Believes(w.conns[e.c], e.m.id);
    }
  }

  // An answer goes stale only by a deletion, and is there until its handler goes on.
  lemma StaleAnswerStep(rule: L.LineRule, w: World, e: Event, c: nat, d: nat)
    requires Inv(w) && e != DeleteJobs(d)
    ensures IsStaleAnswer(Step(rule, w, e), c, d) <==>
            IsStaleAnswer(w, c, d) && e != Resumed(c) && !(e.Dropped? && e.c == c)
  {
    RowsStay(rule, w, e, d);
    if IsStaleAnswer(w, c, d) {
      assert Holds(w.conns[c], w.conns[c].hand.m.id);
      GoneStaysGone(rule, w, e, w.conns[c].hand.m.id);
    }
    AnswerStep(rule, w, e, c);
    hide Inv, Step;
  }

  // The same socket is in the middle of the same.
  predicate SameHand(w: World, v: World, c: nat) {
    c in w.conns && c in v.conns && w.conns[c].hand == v.conns[c].hand && w.conns[c].device == v.conns[c].device
  }

  lemma AnswerStep(rule: L.LineRule, w: World, e: Event, c: nat)
    ensures c in Step(rule, w, e).conns && Step(rule, w, e).conns[c].hand.Answered? ==>
              if c in w.conns && w.conns[c].hand.Answered?
              then SameHand(w, Step(rule, w, e), c) && e != Resumed(c) && !(e.Dropped? && e.c == c)
              else Step(rule, w, e).conns[c].hand.mine ==>
                     IsOwn(w.server.rows, Step(rule, w, e).conns[c].hand.m.id, Step(rule, w, e).conns[c].device)
    ensures c in w.conns && w.conns[c].hand.Answered? && e != Resumed(c) && !(e.Dropped? && e.c == c) ==>
              SameHand(w, Step(rule, w, e), c)
  {
    hide Filtered, Fails, Effect, Fed, SweptServer, ServerWithout, OnRow, IsOwn;
  }

  lemma {:induction false} GonePassesIff(rule: L.LineRule, w: World, es: seq<Event>, d: nat)
    requires Inv(w) && OpenAgree(w, d) && DeleteJobs(d) !in es
    ensures GonePassesIn(rule, w, es, d) <==> exists c :: IsStaleAnswer(w, c, d) && Resumes(es, c)
    decreases |es|
  {
    hide Inv, OpenAgree, IsStaleAnswer, Step, GonePasses;
    if es != [] {
      var e, w' := es[0], Step(rule, w, es[0]);
      StepKeepsInv(rule, w, e);
      OpenAgreeStays(rule, w, e, d);
      OnlyAStaleAnswer(w, e, d);
      GonePassesIff(rule, w', es[1..], d);
      forall c
        ensures IsStaleAnswer(w', c, d) <==> IsStaleAnswer(w, c, d) && e != Resumed(c) && !(e.Dropped? && e.c == c)
      {
        StaleAnswerStep(rule, w, e, c, d);
      }
      if e.Resumed? && IsStaleAnswer(w, e.c, d) { assert Resumes(es, e.c); }
      if c :| IsStaleAnswer(w', c, d) && Resumes(es[1..], c) { assert Resumes(es, c); }
    }
  }

  // A lookup that has read the row of one of the device's jobs, its answer still on the way.
  ghost predicate HasRead(w: World, c: nat, d: nat) { IsConnOf(w, c, d) && w.conns[c].hand.Answered? && w.conns[c].hand.mine }

  // A device is deleted: its socket is told to close, which works, no older one is open and
  // none connects until the jobs are gone. From then on, a report on one of these jobs gets
  // past the gate exactly if a lookup had read its row by the time they went, and resumes.
  lemma DeletedJobPassesIff(rule: L.LineRule, w: World, d: nat, es: seq<Event>, later: seq<Event>)
    requires Inv(w) && NoOlderOpen(w, d) && DeleteJobs(d) !in later
    requires forall e :: e in es ==> !(e.Connect? && e.device == d)
    ensures var v := Run(rule, Step(rule, w, CloseSocket(d, true)), es);
            GonePassesIn(rule, Step(rule, v, DeleteJobs(d)), later, d) <==> exists c :: HasRead(v, c, d) && Resumes(later, c)
  {
    var w' := Step(rule, w, CloseSocket(d, true));
    var v := Run(rule, w', es);
    var after := Step(rule, v, DeleteJobs(d));
    CloseReachesAll(rule, w, d);
    StaysAllClosed(rule, w', es, d);
    StaysClosed(rule, v, DeleteJobs(d), d);
    StepKeepsInv(rule, w, CloseSocket(d, true));
    RunKeepsInv(rule, w', es);
    StepKeepsInv(rule, v, DeleteJobs(d));
    hide Inv, Run, NoOlderOpen;
    assert OpenAgree(after, d) by { hide Step, IsOwn; }
    GonePassesIff(rule, after, later, d);
    forall c
      ensures IsStaleAnswer(after, c, d) <==> HasRead(v, c, d)
    {
      assert after.conns == v.conns && forall id :: !IsOwn(after.server.rows, id, d);
    }
  }

  // Who can still be there once a device's socket was told to close: the handler it was busy
  // with, one the close did not reach, or one that came since.
  lemma WhoIsLeft(rule: L.LineRule, w: World, d: nat, works: bool, es: seq<Event>, c: nat)
    requires Inv(w) && IsConnOf(Run(rule, Step(rule, w, CloseSocket(d, works)), es), c, d)
    ensures (IsConnOf(w, c, d) && !w.conns[c].hand.Idle?) || !works || d !in w.registered || w.registered[d] != c || Connect(c, d) in es
  {
    if Connect(c, d) !in es { NotNew(rule, Step(rule, w, CloseSocket(d, works)), es, c, d); }
    hide Inv, Run;
  }

  lemma {:induction false} NotNew(rule: L.LineRule, w: World, es: seq<Event>, c: nat, d: nat)
    requires IsConnOf(Run(rule, w, es), c, d) && Connect(c, d) !in es
    ensures IsConnOf(w, c, d)
    decreases |es|
  {
    hide IsConnOf, Step;
    if es != [] {
      NotNew(rule, Step(rule, w, es[0]), es[1..], c, d);
      ConnsStay(rule, w, es[0], c, d);
    }
  }

  lemma ConnsStay(rule: L.LineRule, w: World, e: Event, c: nat, d: nat)
    requires IsConnOf(Step(rule, w, e), c, d) && e != Connect(c, d)
    ensures IsConnOf(w, c, d)
  {
    hide Filtered, Fails, Effect, Fed, SweptServer, ServerWithout, OnRow, IsOwn;
  }

  // ---- such a run ------------------------------------------------------------------------

  const ASKED: World :=
    World(Server(map[0 := NewJob(7, J.Shell, 0)], map[], []), 1, map[0 := 7],
          map[0 := Conn(7, {}, true, Looking(JobOutput(0, [])))], map[7 := 0])
  const DELETED: World :=
    World(Server(map[], map[], []), 1, map[0 := 7],
          map[0 := Conn(7, {}, false, Answered(JobOutput(0, []), true))], map[7 := 0])

  // A chunk comes in, the lookup reads the row, the device is deleted, its socket first, and
  // only then does the handler go on. The report passes, and leaves a filter behind for a job
  // that is gone.
  lemma ReportOutlivesItsJob(rule: L.LineRule)
    ensures Run(rule, EMPTY, [Connect(0, 7), Create(7, J.Shell, 0), Received(0, JobOutput(0, [])),
                              LookedUp(0), CloseSocket(7, true), DeleteJobs(7)]) == DELETED
    ensures GonePasses(DELETED, Resumed(0), 7)
    ensures var after := Run(rule, DELETED, [Resumed(0), Done(0)]);
            0 !in after.conns && 0 !in after.server.rows && 0 in after.server.fed
  {
    JobIsAsked(rule);
    JobIsDeleted(rule);
    AnsweredTooLate(rule);
    hide Run, Step;
    var a, b := [Connect(0, 7), Create(7, J.Shell, 0), Received(0, JobOutput(0, []))],
                [LookedUp(0), CloseSocket(7, true), DeleteJobs(7)];
    SplitRun(rule, EMPTY, a, b);
    assert a + b == [Connect(0, 7), Create(7, J.Shell, 0), Received(0, JobOutput(0, [])),
                     LookedUp(0), CloseSocket(7, true), DeleteJobs(7)];
  }

  lemma ThreeSteps(rule: L.LineRule, w: World, e1: Event, e2: Event, e3: Event)
    ensures Run(rule, w, [e1, e2, e3]) == Step(rule, Step(rule, Step(rule, w, e1), e2), e3)
  {
    hide Step;
    assert [e1, e2, e3][1..] == [e2, e3] && [e2, e3][1..] == [e3] && [e3][1..] == [];
    assert Run(rule, w, [e1, e2, e3]) == Run(rule, Step(rule, w, e1), [e2, e3]);
    var one := Step(rule, w, e1);
    assert Run(rule, one, [e2, e3]) == Run(rule, Step(rule, one, e2), [e3]);
    var two := Step(rule, one, e2);
    assert Run(rule, two, [e3]) == Run(rule, Step(rule, two, e3), []);
  }

  lemma JobIsAsked(rule: L.LineRule)
    ensures Run(rule, EMPTY, [Connect(0, 7), Create(7, J.Shell, 0), Received(0, JobOutput(0, []))]) == ASKED
  {
    ThreeSteps(rule, EMPTY, Connect(0, 7), Create(7, J.Shell, 0), Received(0, JobOutput(0, [])));
    var one := Step(rule, EMPTY, Connect(0, 7));
    assert one.conns == map[0 := Conn(7, {}, true, Idle)] && one.registered == map[7 := 0];
    var two := Step(rule, one, Create(7, J.Shell, 0));
    assert two == ASKED.(conns := one.conns);
    hide Run;
  }

  lemma JobIsDeleted(rule: L.LineRule)
    ensures Run(rule, ASKED, [LookedUp(0), CloseSocket(7, true), DeleteJobs(7)]) == DELETED
  {
    ThreeSteps(rule, ASKED, LookedUp(0), CloseSocket(7, true), DeleteJobs(7));
    var one := Step(rule, ASKED, LookedUp(0));
    assert one == ASKED.(conns := map[0 := Conn(7, {}, true, Answered(JobOutput(0, []), true))]);
    var two := Step(rule, one, CloseSocket(7, true));
    assert two == ASKED.(conns := map[0 := Conn(7, {}, false, Answered(JobOutput(0, []), true))]);
    hide Run;
  }

  lemma AnsweredTooLate(rule: L.LineRule)
    ensures GonePasses(DELETED, Resumed(0), 7)
    ensures var after := Run(rule, DELETED, [Resumed(0), Done(0)]);
            0 !in after.conns && 0 !in after.server.rows && 0 in after.server.fed
  {
    var es := [Resumed(0), Done(0)];
    assert es[1..] == [Done(0)] && [Done(0)][1..] == [];
    var one := Step(rule, DELETED, Resumed(0));
    var k := one.conns[0];
    assert k.hand.Doing? && !k.open && k.hand.m == JobOutput(0, []) && one.server.rows == map[] && 0 in one.server.fed;
    EffectOnRows(one.server, k.device, k.hand.m, k.hand.p);
    hide Filtered, Effect, Fails;
    var two := Step(rule, one, Done(0));
    assert two.server == Effect(one.server, k.device, k.hand.m, k.hand.p);
  }
}
