// No device can reach into another device's jobs, over any interleaving of sockets
// reporting arbitrary job ids.
module Isolation {
  import opened Text
  import opened Wrappers
  import opened SecretLines
  import JobFilters
  import opened JobsTable
  import opened AgentSocket
  import J = Jobs

  // What a handler is in the middle of: nothing, a message that is no job report, the lookup
  // of a job it has not cached, before and after the row was read, or what a report leads to
  // once the gate has let it through and the filter has had it.
  datatype Hand = Idle | Busy | Looking(m: Report) | Answered(m: Report, mine: bool) | Doing(m: Report, p: Piece)

  // A socket with its handler: what it has cached as its own, and whether messages still
  // come in. What comes in together with a close counts as in before it.
  datatype Conn = Conn(device: nat, owned: set<nat>, open: bool, hand: Hand)

  // The server with its connections and the one registered for each device. `owners`
  // remembers whose each job was, also once its row is gone.
  datatype World = World(server: Server, nextId: nat, owners: map<nat, nat>,
                         conns: map<nat, Conn>, registered: map<nat, nat>)

  datatype Event =
    | Connect(c: nat, device: nat)
    | Hangup(c: nat)
    | Received(c: nat, m: Report)             // a job report: cached jobs pass at once
    | Other(c: nat)                           // any other message
    | LookedUp(c: nat)                        // the job's row has been read
    | Resumed(c: nat)                         // the handler has the answer
    | Done(c: nat)                            // row and vault have what the report led to
    | Dropped(c: nat, ends: bool)             // the handler is through without it
    | Create(device: nat, kind: J.Kind, now: int)
    | Undispatch(id: nat, reason: Str)
    | Sweep(cutoff: int, patchCutoff: int)
    | CloseSocket(device: nat, works: bool)
    | DeleteJobs(device: nat)

  // ---- the steps -------------------------------------------------------------------------

  function With(w: World, c: nat, k: Conn): World { w.(conns := w.conns[c := k]) }

  predicate Listens(w: World, c: nat) { c in w.conns && w.conns[c].open && w.conns[c].hand.Idle? }

  // The handler of c returns: its entry goes, unless a newer socket has replaced it.
  function Leave(w: World, c: nat): World {
    w.(conns := w.conns - {c}, registered := map d | d in w.registered && w.registered[d] != c :: w.registered[d])
  }

  // No further message comes in; an idle handler notices at once, a busy one afterwards.
  function Closed(w: World, c: nat): World {
    if c !in w.conns then w
    else if w.conns[c].hand.Idle? then Leave(w, c)
    else With(w, c, w.conns[c].(open := false))
  }

  // The handler is through with its message.
  function Free(w: World, c: nat, ends: bool): World {
    if c !in w.conns || w.conns[c].hand.Idle? then w
    else if ends || !w.conns[c].open then Leave(w, c)
    else With(w, c, w.conns[c].(hand := Idle))
  }

  // A report gets past the gate: cache and filter have it before anything else can happen.
  function Passed(rule: LineRule, w: World, c: nat, m: Report): World
    requires c in w.conns
  {
    var k := w.conns[c];
    var owned := if m.JobResult? then k.owned - {m.id} else k.owned + {m.id};
    With(w.(server := Fed(w.server, m)), c, k.(owned := owned, hand := Doing(m, Filtered(rule, w.server, m))))
  }

  predicate IsOwn(rows: J.Table, id: nat, device: nat) { id in rows && rows[id].device == device }

  function Finished(w: World, c: nat): World
    requires c in w.conns && w.conns[c].hand.Doing?
  {
    var k := w.conns[c];
    w.(server := Effect(w.server, k.device, k.hand.m, k.hand.p))
  }

  predicate EndsBadly(w: World, c: nat) {
    c in w.conns && w.conns[c].hand.Doing? && Fails(w.server.rows, w.conns[c].hand.m.id, w.conns[c].hand.p)
  }

  function Step(rule: LineRule, w: World, e: Event): World {
    var s := w.server;
    match e
    case Connect(c, device) =>
      if c in w.conns then w
      else With(w, c, Conn(device, {}, true, Idle)).(registered := w.registered[device := c])
    case Hangup(c) => Closed(w, c)
    case Received(c, m) =>
      if !Listens(w, c) then w
      else if m.id in w.conns[c].owned then Passed(rule, w, c, m)
      else With(w, c, w.conns[c].(hand := Looking(m)))
    case Other(c) => if Listens(w, c) then With(w, c, w.conns[c].(hand := Busy)) else w
    case LookedUp(c) =>
      if c in w.conns && w.conns[c].hand.Looking?
      then With(w, c, w.conns[c].(hand := Answered(w.conns[c].hand.m, IsOwn(s.rows, w.conns[c].hand.m.id, w.conns[c].device))))
      else w
    case Resumed(c) =>
      if !(c in w.conns && w.conns[c].hand.Answered?) then w
      else if w.conns[c].hand.mine then Passed(rule, w, c, w.conns[c].hand.m)
      else Free(w, c, false)
    case Done(c) => if c in w.conns && w.conns[c].hand.Doing? then Free(Finished(w, c), c, EndsBadly(w, c)) else w
    case Dropped(c, ends) => Free(w, c, ends)
    case Create(device, kind, now) =>
      w.(server := s.(rows := s.rows[w.nextId := NewJob(device, kind, now)]),
         owners := w.owners[w.nextId := device], nextId := w.nextId + 1)
    case Undispatch(id, reason) => w.(server := s.(rows := OnRow(s.rows, id, J.Undispatched(reason))))
    case Sweep(cutoff, patchCutoff) => w.(server := SweptServer(s, cutoff, patchCutoff))
    case CloseSocket(device, works) =>
      if works && device in w.registered then Closed(w, w.registered[device]) else w
    case DeleteJobs(device) => w.(server := ServerWithout(s, device))
  }

  // What the server does of its own accord, to every row and every job.
  lemma OwnStepsAre(rule: LineRule, w: World, e: Event)
    ensures var after, rows := Step(rule, w, e), w.server.rows;
            (e.Create? ==>
               && after.server.rows == rows[w.nextId := J.Job(e.device, e.kind, J.Queued, None, [], e.now)]
               && after.nextId == w.nextId + 1 && after.owners == w.owners[w.nextId := e.device])
            && (e.Undispatch? || e.Sweep? ==> after.server.rows.Keys == rows.Keys)
            && (e.Undispatch? ==>
                  && after.server.fed == w.server.fed
                  && forall id :: id in rows ==>
                       after.server.rows[id] == (if id == e.id && rows[id].status == J.Queued
                                                 then rows[id].(status := J.Failed, output := e.reason) else rows[id]))
            && (e.Sweep? ==>
                  forall id :: id in rows ==>
                    var limit := if rows[id].kind == J.PatchInstall then e.patchCutoff else e.cutoff;
                    var dead := rows[id].status in {J.Queued, J.Running} && rows[id].createdAt < limit;
                    && after.server.rows[id] == (if dead then rows[id].(status := J.Timeout) else rows[id])
                    && (id in after.server.fed <==> id in w.server.fed && !dead))
            && (e.DeleteJobs? ==>
                  forall id ::
                    var gone := id in rows && rows[id].device == e.device;
                    && (id in after.server.rows <==> id in rows && !gone)
                    && (id in after.server.rows ==> after.server.rows[id] == rows[id])
                    && (id in after.server.fed <==> id in w.server.fed && !gone))
  {
    if e.Sweep? {
      SweepTakesWhatRanOut(w.server.rows, 0, -e.cutoff, -e.patchCutoff);
    }
  }

  // What becomes of the connections: nothing here touches the server, nor a connection other
  // than the one meant, which an idle handler leaves at once.
  lemma SocketStepsAre(rule: LineRule, w: World, e: Event)
    requires e.Hangup? || (e.CloseSocket? && e.works && e.device in w.registered) || e.Connect?
    ensures var after := Step(rule, w, e);
            var c := if e.CloseSocket? then w.registered[e.device] else e.c;
            && after.server == w.server && after.owners == w.owners && after.nextId == w.nextId
            && (forall k :: k in w.conns && k != c ==> k in after.conns && after.conns[k] == w.conns[k])
            && (forall k :: k in after.conns ==> k == c || k in w.conns)
            && (!e.Connect? && c in w.conns && w.conns[c].hand == Idle ==>
                  c !in after.conns && forall d :: d in after.registered <==> d in w.registered && w.registered[d] != c)
            && (!e.Connect? && c in w.conns && w.conns[c].hand != Idle ==>
                  after.registered == w.registered && after.conns[c] == w.conns[c].(open := false))
            && (e.Connect? && c !in w.conns ==>
                  after.conns[c] == Conn(e.device, {}, true, Idle) && after.registered == w.registered[e.device := c])
  {
  }

  function Run(rule: LineRule, w: World, es: seq<Event>): World
    decreases |es|
  {
    if es == [] then w else Run(rule, Step(rule, w, es[0]), es[1..])
  }

  const EMPTY: World := World(Server(map[], map[], []), 0, map[], map[], map[])

  lemma FirstStep(rule: LineRule, w: World, e: Event, es: seq<Event>)
    ensures Run(rule, w, [e] + es) == Run(rule, Step(rule, w, e), es)
  {
    assert ([e] + es)[1..] == es;
  }

  lemma {:induction false} SplitRun(rule: LineRule, w: World, a: seq<Event>, b: seq<Event>)
    ensures Run(rule, w, a + b) == Run(rule, Run(rule, w, a), b)
    decreases |a|
  {
    if a == [] {
      assert a + b == b;
    } else {
      assert (a + b)[1..] == a[1..] + b;
      SplitRun(rule, Step(rule, w, a[0]), a[1..], b);
    }
  }

  // ---- the invariant ---------------------------------------------------------------------

  // What a handler takes for its own: what it has cached, and what a lookup has told it.
  predicate Believes(k: Conn, id: nat) { id in k.owned || (k.hand.Answered? && k.hand.mine && k.hand.m.id == id) }

  predicate Holds(k: Conn, id: nat) { Believes(k, id) || (k.hand.Doing? && k.hand.m.id == id) }

  // Rows, and the jobs a handler takes for its own, belong to whom they were created for; a
  // closed socket has a handler still busy; and each device's registered socket is one of
  // its own.
  ghost predicate Inv(w: World) {
    && (forall id :: id in w.owners ==> id < w.nextId)
    && (forall id :: id in w.server.rows ==> id in w.owners && w.server.rows[id].device == w.owners[id])
    && (forall c, id :: c in w.conns && Holds(w.conns[c], id) ==> id in w.owners && w.owners[id] == w.conns[c].device)
    && (forall c :: c in w.conns && !w.conns[c].open ==> !w.conns[c].hand.Idle?)
    && (forall d :: d in w.registered ==> w.registered[d] in w.conns && w.conns[w.registered[d]].device == d)
  }

  lemma EmptyIsInvariant()
    ensures Inv(EMPTY)
  {
  }

  // A step of one handler: the others stay, and so do rows and owners but for what changes
  // in a row without moving it.
  lemma OneHandler(w: World, c: nat, k: Conn, s: Server)
    requires Inv(w) && c in w.conns && k.device == w.conns[c].device && (k.open || !k.hand.Idle?)
    requires forall id :: Holds(k, id) ==> id in w.owners && w.owners[id] == k.device
    requires s.rows.Keys == w.server.rows.Keys && forall id :: id in s.rows ==> s.rows[id].device == w.server.rows[id].device
    ensures Inv(With(w.(server := s), c, k))
  {
  }

  lemma SameServer(w: World, c: nat, k: Conn)
    ensures With(w.(server := w.server), c, k) == With(w, c, k)
  {
  }

  lemma StepKeepsInv(rule: LineRule, w: World, e: Event)
    requires Inv(w)
    ensures Inv(Step(rule, w, e))
  {
    hide Inv;
    match e {
      case Connect(c, device) => ConnectKeepsInv(rule, w, c, device);
      case Hangup(c) => ClosedKeepsInv(w, c);
      case Received(c, m) => ReceivedKeepsInv(rule, w, c, m);
      case Other(c) => WaitingKeepsInv(rule, w, e);
      case LookedUp(c) => WaitingKeepsInv(rule, w, e);
      case Resumed(c) =>
        FreeKeepsInv(w, c, false);
        if c in w.conns && w.conns[c].hand.Answered? && w.conns[c].hand.mine { PassedKeepsInv(rule, w, c, w.conns[c].hand.m); }
      case Done(c) =>
        if c in w.conns && w.conns[c].hand.Doing? {
          FinishedKeepsInv(w, c);
          FreeKeepsInv(Finished(w, c), c, EndsBadly(w, c));
        }
      case Dropped(c, ends) => FreeKeepsInv(w, c, ends);
      case CloseSocket(device, works) =>
        if works && device in w.registered { ClosedKeepsInv(w, w.registered[device]); }
      case _ => ServerStepKeepsInv(rule, w, e);
    }
  }

  lemma ConnectKeepsInv(rule: LineRule, w: World, c: nat, device: nat)
    requires Inv(w)
    ensures Inv(Step(rule, w, Connect(c, device)))
  {
  }

  lemma ReceivedKeepsInv(rule: LineRule, w: World, c: nat, m: Report)
    requires Inv(w)
    ensures Inv(Step(rule, w, Received(c, m)))
  {
    if Listens(w, c) {
      if m.id in w.conns[c].owned {
        PassedKeepsInv(rule, w, c, m);
      } else {
        WaitingKeepsInv(rule, w, Received(c, m));
      }
    }
    hide Inv;
  }

  // Steps that change nothing but what one handler waits for.
  lemma WaitingKeepsInv(rule: LineRule, w: World, e: Event)
    requires Inv(w) && (e.Other? || e.LookedUp? || (e.Received? && !(Listens(w, e.c) && e.m.id in w.conns[e.c].owned)))
    ensures Inv(Step(rule, w, e))
  {
  }

  lemma PassedKeepsInv(rule: LineRule, w: World, c: nat, m: Report)
    requires Inv(w) && c in w.conns && Believes(w.conns[c], m.id)
    ensures Inv(Passed(rule, w, c, m))
  {
    hide Filtered;
    var k := Passed(rule, w, c, m).conns[c];
    assert Fed(w.server, m).rows == w.server.rows;
    assert forall id :: Holds(k, id) ==> Holds(w.conns[c], id);
    OneHandler(w, c, k, Fed(w.server, m));
    hide Inv;
  }

  lemma LeaveKeepsInv(w: World, c: nat)
    requires Inv(w)
    ensures Inv(Leave(w, c))
  {
  }

  lemma ClosedKeepsInv(w: World, c: nat)
    requires Inv(w)
    ensures Inv(Closed(w, c))
  {
    LeaveKeepsInv(w, c);
    if c in w.conns && !w.conns[c].hand.Idle? {
      var k := w.conns[c].(open := false);
      assert forall id :: Holds(k, id) ==> Holds(w.conns[c], id);
      OneHandler(w, c, k, w.server);
      SameServer(w, c, k);
    }
    hide Leave, Inv, Holds;
  }

  lemma FreeKeepsInv(w: World, c: nat, ends: bool)
    requires Inv(w)
    ensures Inv(Free(w, c, ends))
  {
    LeaveKeepsInv(w, c);
    if c in w.conns && w.conns[c].open {
      var k := w.conns[c].(hand := Idle);
      assert forall id :: Holds(k, id) ==> Holds(w.conns[c], id);
      OneHandler(w, c, k, w.server);
      SameServer(w, c, k);
    }
    hide Leave, Inv, Holds;
  }

  lemma FinishedKeepsInv(w: World, c: nat)
    requires Inv(w) && c in w.conns && w.conns[c].hand.Doing?
    ensures Inv(Finished(w, c))
  {
    var k := w.conns[c];
    EffectOnRows(w.server, k.device, k.hand.m, k.hand.p);
    OneHandler(w, c, k, Finished(w, c).server);
    assert w.conns[c := k] == w.conns;
    hide Inv, Effect;
  }

  predicate IsServerStep(e: Event) { e.Create? || e.Undispatch? || e.Sweep? || e.DeleteJobs? }

  lemma ServerStepKeepsInv(rule: LineRule, w: World, e: Event)
    requires Inv(w) && IsServerStep(e)
    ensures Inv(Step(rule, w, e))
  {
    var after := Step(rule, w, e);
    assert forall id :: id in w.owners ==> id in after.owners && after.owners[id] == w.owners[id];
    assert after.conns == w.conns && after.registered == w.registered;
    hide Holds;
  }

  lemma {:induction false} RunKeepsInv(rule: LineRule, w: World, es: seq<Event>)
    requires Inv(w)
    ensures Inv(Run(rule, w, es))
    decreases |es|
  {
    if es != [] {
      StepKeepsInv(rule, w, es[0]);
      RunKeepsInv(rule, Step(rule, w, es[0]), es[1..]);
    }
  }

  // ---- what a report touches -------------------------------------------------------------

  // Its own filter, and then the row and the credentials of its own job.
  lemma EffectOnRows(s: Server, device: nat, m: Report, p: Piece)
    ensures var t := Effect(s, device, m, p); RowsLike(s.rows, t.rows, m.id) && t.fed == s.fed
    ensures var t := Effect(s, device, m, p);
            t.rows.Keys == s.rows.Keys && forall id :: id in s.rows ==> t.rows[id].device == s.rows[id].device
  {
    hide OnRow, Appended, Fails, RowsLike;
    AppendedRows(s.rows, m.id, p.out);
    SameRows(s.rows, m.id);
    match m {
      case JobStarted(id) => OneRow(s.rows, id, J.Started);
      case JobOutput(id, chunk) =>
      case JobResult(id, word, exitCode) =>
        var e := J.Finished(J.ReportedStatus(word), exitCode);
        OneRow(Appended(s.rows, id, p.out), id, e);
        RowsLikeTwice(s.rows, Appended(s.rows, id, p.out), OnRow(Appended(s.rows, id, p.out), id, e), id);
    }
    assert RowsLike(s.rows, Effect(s, device, m, p).rows, m.id);
    RowsLikeMeans(s.rows, Effect(s, device, m, p).rows, m.id);
  }

  lemma EffectOnVault(s: Server, device: nat, m: Report, p: Piece, j: nat)
    requires m.JobStarted? ==> p == Nothing
    ensures VaultOf(Effect(s, device, m, p).vault, j) ==
            VaultOf(s.vault, j) + if m.id == j then Entries(device, j, Storeds(p.found)) else []
  {
    hide Fails, Storeds, VaultOf, Entries, OnRow, Appended;
    var stored := Storeds(p.found);
    VaultOfConcat(s.vault, Entries(device, m.id, stored), j);
    VaultOfEntries(device, m.id, stored, j);
    if m.JobStarted? {
      NothingStored(device, m.id, []);
      assert stored == [];
      assert Entries(device, m.id, stored) == [];
    }
    assert VaultOf(s.vault, j) + [] == VaultOf(s.vault, j);
  }

  // The same table but for the row `id`, which stays with its device.
  ghost predicate RowsLike(a: J.Table, b: J.Table, id: nat) {
    && a.Keys == b.Keys
    && (forall i :: i in a && i != id ==> b[i] == a[i])
    && (id in a ==> b[id].device == a[id].device)
  }

  lemma RowsLikeMeans(a: J.Table, b: J.Table, id: nat)
    requires RowsLike(a, b, id)
    ensures a.Keys == b.Keys
    ensures forall i :: i in a ==> b[i].device == a[i].device
    ensures forall i :: i in a && i != id ==> b[i] == a[i]
  {
  }

  lemma RowsLikeTwice(a: J.Table, b: J.Table, c: J.Table, id: nat)
    requires RowsLike(a, b, id) && RowsLike(b, c, id)
    ensures RowsLike(a, c, id)
  {
  }

  lemma SameRows(t: J.Table, id: nat)
    ensures RowsLike(t, t, id)
  {
  }

  lemma OneRow(t: J.Table, id: nat, e: J.Event)
    ensures RowsLike(t, OnRow(t, id, e), id)
  {
  }

  lemma AppendedRows(t: J.Table, id: nat, out: Str)
    ensures RowsLike(t, Appended(t, id, out), id)
  {
    hide OnRow;
    OneRow(t, id, J.Output(out));
  }

  // ---- non-interference ------------------------------------------------------------------

  function VaultOf(v: seq<Entry>, job: nat): seq<Entry> {
    if v == [] then []
    else if v[0].job == job then [v[0]] + VaultOf(v[1..], job)
    else VaultOf(v[1..], job)
  }

  lemma {:induction false} VaultOfConcat(a: seq<Entry>, b: seq<Entry>, job: nat)
    ensures VaultOf(a + b, job) == VaultOf(a, job) + VaultOf(b, job)
  {
    if a == [] {
      assert a + b == b;
    } else {
      assert (a + b)[1..] == a[1..] + b;
      VaultOfConcat(a[1..], b, job);
    }
  }

  lemma {:induction false} VaultOfEntries(device: nat, id: nat, found: seq<Credential>, job: nat)
    ensures VaultOf(Entries(device, id, found), job) == if id == job then Entries(device, id, found) else []
    decreases |found|
  {
    if found != [] {
      VaultOfEntries(device, id, found[1..], job);
      assert Entries(device, id, found)[1..] == Entries(device, id, found[1..]);
    }
  }

  function About(h: Hand): Option<nat> { if h.Looking? || h.Answered? || h.Doing? then Some(h.m.id) else None }

  // The second socket does for job j what the first does, and is busy with something else
  // when the first is.
  ghost predicate SameSocket(a: Conn, b: Conn, j: nat, d: nat) {
    && a.device == b.device && a.open == b.open
    && b.hand == (if a.hand.Idle? then Idle else if a.device == d && About(a.hand) == Some(j) then a.hand else Busy)
    && (a.device == d ==> (j in a.owned <==> j in b.owned))
  }

  ghost predicate SameJob(s: Server, t: Server, j: nat) {
    && (j in s.rows <==> j in t.rows)
    && (j in s.rows ==> s.rows[j] == t.rows[j])
    && FedText(s.fed, j) == FedText(t.fed, j)
    && VaultOf(s.vault, j) == VaultOf(t.vault, j)
  }

  // A started job has nothing filtered yet.
  ghost predicate Sensible(h: Hand) { h.Doing? && h.m.JobStarted? ==> h.p == Nothing }

  // Two servers that look the same from job j of device d: its row, its filter, its
  // credentials, and d's sockets as far as j goes.
  ghost predicate Alike(w: World, v: World, j: nat, d: nat) {
    && w.nextId == v.nextId && w.owners == v.owners && w.registered == v.registered
    && w.conns.Keys == v.conns.Keys
    && (forall c :: c in w.conns ==> SameSocket(w.conns[c], v.conns[c], j, d) && Sensible(w.conns[c].hand))
    && SameJob(w.server, v.server, j)
  }

  // Only d's reports on j are its own.
  predicate IsForeign(device: nat, id: nat, j: nat, d: nat) { !(device == d && id == j) }

  predicate IsForeignHand(w: World, c: nat, j: nat, d: nat) {
    c in w.conns && About(w.conns[c].hand).Some? && IsForeign(w.conns[c].device, About(w.conns[c].hand).value, j, d)
  }

  // In place of a foreign report some other message comes in; its handler is through when
  // that of the report would have been, and to the same end.
  function InPlaceOf(rule: LineRule, w: World, e: Event, j: nat, d: nat): Event {
    match e
    case Received(c, m) => if c in w.conns && IsForeign(w.conns[c].device, m.id, j, d) then Other(c) else e
    case Resumed(c) => if IsForeignHand(w, c, j, d) && w.conns[c].hand.Answered? && !w.conns[c].hand.mine then Dropped(c, false) else e
    case Done(c) => if IsForeignHand(w, c, j, d) && w.conns[c].hand.Doing? then Dropped(c, EndsBadly(w, c)) else e
    case _ => e
  }

  // Both sockets of c take a step that leaves them alike.
  lemma BothMove(w: World, v: World, c: nat, a: Conn, b: Conn, s: Server, t: Server, j: nat, d: nat)
    requires Alike(w, v, j, d) && c in w.conns && SameSocket(a, b, j, d) && Sensible(a.hand) && SameJob(s, t, j)
    ensures Alike(With(w.(server := s), c, a), With(v.(server := t), c, b), j, d)
  {
    hide SameSocket, SameJob;
  }

  lemma FreeKeepsAlike(w: World, v: World, c: nat, ends: bool, j: nat, d: nat)
    requires Alike(w, v, j, d)
    ensures Alike(Free(w, c, ends), Free(v, c, ends), j, d)
  {
    hide SameJob;
  }

  lemma ClosedKeepsAlike(w: World, v: World, c: nat, j: nat, d: nat)
    requires Alike(w, v, j, d)
    ensures Alike(Closed(w, c), Closed(v, c), j, d)
  {
    hide SameJob;
  }

  lemma FedKeepsJob(s: Server, t: Server, m: Report, j: nat)
    requires SameJob(s, t, j)
    ensures m.id == j ==> SameJob(Fed(s, m), Fed(t, m), j)
    ensures m.id != j ==> SameJob(Fed(s, m), t, j)
  {
    hide VaultOf;
  }

  lemma EffectKeepsJob(s: Server, t: Server, device: nat, m: Report, p: Piece, j: nat)
    requires SameJob(s, t, j) && (m.JobStarted? ==> p == Nothing)
    ensures m.id == j ==> SameJob(Effect(s, device, m, p), Effect(t, device, m, p), j)
    ensures m.id == j ==> Fails(s.rows, j, p) == Fails(t.rows, j, p)
    ensures m.id != j ==> SameJob(Effect(s, device, m, p), t, j)
  {
    EffectOnRows(s, device, m, p);
    EffectOnVault(s, device, m, p, j);
    EffectOnRows(t, device, m, p);
    EffectOnVault(t, device, m, p, j);
    if m.id == j {
      SameEffect(s, t, device, m, p);
      hide Effect, VaultOf, Storeds, Entries, Fails;
    } else {
      RowsLikeMeans(s.rows, Effect(s, device, m, p).rows, m.id);
      hide Effect, VaultOf, Storeds, Entries, Fails, RowsLike;
    }
  }

  lemma SameEffect(s: Server, t: Server, device: nat, m: Report, p: Piece)
    requires SameJob(s, t, m.id)
    ensures Fails(s.rows, m.id, p) == Fails(t.rows, m.id, p)
    ensures var s', t' := Effect(s, device, m, p), Effect(t, device, m, p);
            (m.id in s'.rows <==> m.id in t'.rows) && (m.id in s'.rows ==> s'.rows[m.id] == t'.rows[m.id])
  {
    hide J.Apply, StoreRaises, Storeds, Entries, J.Encodable, VaultOf;
  }

  lemma SameFiltered(rule: LineRule, s: Server, t: Server, m: Report)
    requires FedText(s.fed, m.id) == FedText(t.fed, m.id)
    ensures Filtered(rule, s, m) == Filtered(rule, t, m)
  {
    hide JobFilters.Increment, JobFilters.Remainder;
  }

  lemma PassedKeepsAlike(rule: LineRule, w: World, v: World, c: nat, m: Report, j: nat, d: nat)
    requires Alike(w, v, j, d) && c in w.conns && (IsForeign(w.conns[c].device, m.id, j, d) ==> m.id != j)
    ensures !IsForeign(w.conns[c].device, m.id, j, d) ==> Alike(Passed(rule, w, c, m), Passed(rule, v, c, m), j, d)
    ensures IsForeign(w.conns[c].device, m.id, j, d) ==> Alike(Passed(rule, w, c, m), With(v, c, v.conns[c].(hand := Busy)), j, d)
  {
    FedKeepsJob(w.server, v.server, m, j);
    var a := Passed(rule, w, c, m).conns[c];
    assert Sensible(a.hand);
    if IsForeign(w.conns[c].device, m.id, j, d) {
      BothMove(w, v, c, a, v.conns[c].(hand := Busy), Fed(w.server, m), v.server, j, d);
    } else {
      SameFiltered(rule, w.server, v.server, m);
      BothMove(w, v, c, a, Passed(rule, v, c, m).conns[c], Fed(w.server, m), Fed(v.server, m), j, d);
    }
    hide Alike, SameJob, Filtered;
  }

  // Job j, if it is there, is d's.
  ghost predicate IsOf(w: World, j: nat, d: nat) { j in w.owners ==> w.owners[j] == d }

  lemma ReceivedKeepsAlike(rule: LineRule, w: World, v: World, c: nat, m: Report, j: nat, d: nat)
    requires Inv(w) && Alike(w, v, j, d) && IsOf(w, j, d)
    ensures var e := Received(c, m); Alike(Step(rule, w, e), Step(rule, v, InPlaceOf(rule, w, e, j, d)), j, d)
  {
    hide Filtered, Fed, SameJob;
    if Listens(w, c) {
      var foreign := IsForeign(w.conns[c].device, m.id, j, d);
      if m.id in w.conns[c].owned {
        assert Holds(w.conns[c], m.id);
        PassedKeepsAlike(rule, w, v, c, m, j, d);
      } else {
        var b := if foreign then Busy else Looking(m);
        BothMove(w, v, c, w.conns[c].(hand := Looking(m)), v.conns[c].(hand := b), w.server, v.server, j, d);
      }
    }
    hide Passed;
  }

  lemma LookedUpKeepsAlike(rule: LineRule, w: World, v: World, c: nat, j: nat, d: nat)
    requires Alike(w, v, j, d)
    ensures Alike(Step(rule, w, LookedUp(c)), Step(rule, v, LookedUp(c)), j, d)
  {
    if c in w.conns && w.conns[c].hand.Looking? {
      var a, b := Step(rule, w, LookedUp(c)), Step(rule, v, LookedUp(c));
      BothMove(w, v, c, a.conns[c], b.conns[c], w.server, v.server, j, d);
      assert v.conns[c := v.conns[c]] == v.conns;
    }
    hide Alike, VaultOf;
  }

  lemma ResumedKeepsAlike(rule: LineRule, w: World, v: World, c: nat, j: nat, d: nat)
    requires Inv(w) && Alike(w, v, j, d) && IsOf(w, j, d)
    ensures var e := Resumed(c); Alike(Step(rule, w, e), Step(rule, v, InPlaceOf(rule, w, e, j, d)), j, d)
  {
    hide Filtered, Fed, SameJob;
    if c in w.conns && w.conns[c].hand.Answered? {
      var m := w.conns[c].hand.m;
      if w.conns[c].hand.mine {
        assert Holds(w.conns[c], m.id);
        PassedKeepsAlike(rule, w, v, c, m, j, d);
        assert IsForeign(w.conns[c].device, m.id, j, d) ==> v.conns[c := v.conns[c].(hand := Busy)] == v.conns;
      } else {
        FreeKeepsAlike(w, v, c, false, j, d);
      }
    }
    hide Passed, Free;
  }

  lemma DoneKeepsAlike(rule: LineRule, w: World, v: World, c: nat, j: nat, d: nat)
    requires Inv(w) && Alike(w, v, j, d) && IsOf(w, j, d)
    ensures var e := Done(c); Alike(Step(rule, w, e), Step(rule, v, InPlaceOf(rule, w, e, j, d)), j, d)
  {
    hide Effect, SameJob, Fails;
    if c in w.conns && w.conns[c].hand.Doing? {
      var k := w.conns[c];
      assert Holds(k, k.hand.m.id);
      EffectKeepsJob(w.server, v.server, k.device, k.hand.m, k.hand.p, j);
      var t := if IsForeignHand(w, c, j, d) then v.server else Effect(v.server, k.device, k.hand.m, k.hand.p);
      BothMove(w, v, c, k, v.conns[c], Finished(w, c).server, t, j, d);
      assert w.conns[c := k] == w.conns && v.conns[c := v.conns[c]] == v.conns;
      FreeKeepsAlike(Finished(w, c), v.(server := t), c, EndsBadly(w, c), j, d);
      hide Free, Alike;
    }
  }

  lemma ConnectKeepsAlike(rule: LineRule, w: World, v: World, e: Event, j: nat, d: nat)
    requires Alike(w, v, j, d) && (e.Connect? || e.Other?)
    ensures Alike(Step(rule, w, e), Step(rule, v, e), j, d)
  {
    hide SameJob;
  }

  lemma ServerStepKeepsAlike(rule: LineRule, w: World, v: World, e: Event, j: nat, d: nat)
    requires Alike(w, v, j, d) && IsServerStep(e)
    ensures Alike(Step(rule, w, e), Step(rule, v, e), j, d)
  {
    ServerStepKeepsJob(rule, w, v, e, j, d);
    hide SameJob, SameSocket, SweptServer, ServerWithout, OnRow;
    var a, b := Step(rule, w, e), Step(rule, v, e);
    assert a.conns == w.conns && b.conns == v.conns && a.registered == b.registered;
  }

  lemma ServerStepKeepsJob(rule: LineRule, w: World, v: World, e: Event, j: nat, d: nat)
    requires Alike(w, v, j, d) && IsServerStep(e)
    ensures SameJob(Step(rule, w, e).server, Step(rule, v, e).server, j)
  {
    hide SameSocket, VaultOf;
  }

  lemma StepKeepsAlike(rule: LineRule, w: World, v: World, e: Event, j: nat, d: nat)
    requires Inv(w) && Alike(w, v, j, d) && IsOf(w, j, d)
    ensures Alike(Step(rule, w, e), Step(rule, v, InPlaceOf(rule, w, e, j, d)), j, d)
  {
    match e {
      case Received(c, m) => ReceivedKeepsAlike(rule, w, v, c, m, j, d);
      case LookedUp(c) => LookedUpKeepsAlike(rule, w, v, c, j, d);
      case Resumed(c) => ResumedKeepsAlike(rule, w, v, c, j, d);
      case Done(c) => DoneKeepsAlike(rule, w, v, c, j, d);
      case Dropped(c, ends) => FreeKeepsAlike(w, v, c, ends, j, d);
      case Hangup(c) => ClosedKeepsAlike(w, v, c, j, d);
      case CloseSocket(device, works) =>
        if works && device in w.registered { ClosedKeepsAlike(w, v, w.registered[device], j, d); }
      case Connect(c, device) => ConnectKeepsAlike(rule, w, v, e, j, d);
      case Other(c) => ConnectKeepsAlike(rule, w, v, e, j, d);
      case _ => ServerStepKeepsAlike(rule, w, v, e, j, d);
    }
    assert w.registered == v.registered;
    hide Inv, Alike, IsOf, Free, Closed;
  }

  // The run in which no foreign report comes in.
  function Own(rule: LineRule, w: World, es: seq<Event>, j: nat, d: nat): seq<Event>
    decreases |es|
  {
    if es == [] then [] else [InPlaceOf(rule, w, es[0], j, d)] + Own(rule, Step(rule, w, es[0]), es[1..], j, d)
  }

  lemma OwnersStay(rule: LineRule, w: World, e: Event)
    requires Inv(w)
    ensures forall id :: id in w.owners ==> id in Step(rule, w, e).owners && Step(rule, w, e).owners[id] == w.owners[id]
  {
    hide Effect, Fed, Filtered, SweptServer, ServerWithout, OnRow, Holds, Fails;
  }

  lemma {:induction false} OwnersStayInRun(rule: LineRule, w: World, es: seq<Event>)
    requires Inv(w)
    ensures forall id :: id in w.owners ==> id in Run(rule, w, es).owners && Run(rule, w, es).owners[id] == w.owners[id]
    decreases |es|
  {
    hide Inv, Step;
    if es != [] {
      StepKeepsInv(rule, w, es[0]);
      OwnersStay(rule, w, es[0]);
      OwnersStayInRun(rule, Step(rule, w, es[0]), es[1..]);
    }
  }

  // Ids are not used again: a job that is gone stays gone.
  lemma GoneStaysGone(rule: LineRule, w: World, e: Event, id: nat)
    requires Inv(w) && id in w.owners && id !in w.server.rows
    ensures id !in Step(rule, w, e).server.rows
  {
    hide Filtered, Fails, Holds;
    if e.Done? && e.c in w.conns && w.conns[e.c].hand.Doing? {
      var k := w.conns[e.c];
      EffectOnRows(w.server, k.device, k.hand.m, k.hand.p);
      assert Step(rule, w, e).server == Effect(w.server, k.device, k.hand.m, k.hand.p);
      hide Effect;
    } else {
      hide Effect;
    }
  }

  lemma {:induction false} GoneForGood(rule: LineRule, w: World, es: seq<Event>, id: nat)
    requires Inv(w) && id in w.owners && id !in w.server.rows
    ensures id !in Run(rule, w, es).server.rows
    decreases |es|
  {
    hide Inv, Step;
    if es != [] {
      StepKeepsInv(rule, w, es[0]);
      OwnersStay(rule, w, es[0]);
      GoneStaysGone(rule, w, es[0], id);
      GoneForGood(rule, Step(rule, w, es[0]), es[1..], id);
    }
  }

  // Job j of device d comes out of a run as it would had no other device reported anything,
  // and d nothing about other jobs.
  lemma {:induction false} NonInterference(rule: LineRule, w: World, v: World, es: seq<Event>, j: nat, d: nat)
    requires Inv(w) && Alike(w, v, j, d) && IsOf(Run(rule, w, es), j, d)
    ensures Alike(Run(rule, w, es), Run(rule, v, Own(rule, w, es, j, d)), j, d)
    decreases |es|
  {
    OwnersStayInRun(rule, w, es);
    assert IsOf(w, j, d);
    hide Alike, Inv, IsOf, InPlaceOf, Step;
    if es != [] {
      var e, e' := es[0], InPlaceOf(rule, w, es[0], j, d);
      var w', v' := Step(rule, w, e), Step(rule, v, e');
      StepKeepsInv(rule, w, e);
      StepKeepsAlike(rule, w, v, e, j, d);
      NonInterference(rule, w', v', es[1..], j, d);
      FirstStep(rule, v, e', Own(rule, w', es[1..], j, d));
    }
  }

  // In particular over every run of the server.
  lemma NonInterferenceFromStart(rule: LineRule, es: seq<Event>, j: nat, d: nat)
    requires IsOf(Run(rule, EMPTY, es), j, d)
    ensures Alike(Run(rule, EMPTY, es), Run(rule, EMPTY, Own(rule, EMPTY, es, j, d)), j, d)
  {
    assert Alike(EMPTY, EMPTY, j, d) by { hide VaultOf; }
    EmptyIsInvariant();
    NonInterference(rule, EMPTY, EMPTY, es, j, d);
  }
}
