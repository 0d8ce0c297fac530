// One connection of the agent: the goroutines that report, the bounded outbox, and the serve
// loop that alone writes to the socket. Every step of any of them, interleaved.
module Outbox {
  import opened Text
  import opened Wrappers

  const OUTBOX_SIZE: nat := 64

  // What goes over the wire: the messages of a goroutine, numbered by the goroutine, and what
  // the serve loop writes itself.
  datatype Msg =
    | Started(run: nat)
    | Output(run: nat, chunk: Str)
    | Result(run: nat, word: string, exitCode: Option<int>)
    | Report(run: nat)
    | Direct

  datatype Stage = Begun | Working | Ended | Reporting

  // A goroutine that reports: how far it is, and what it is waiting to queue.
  datatype Worker = Worker(stage: Stage, offer: Option<Msg>)

  datatype Command = Answered | RunJob | Scan | Ignored

  datatype Reader = Reading | Handing(command: Command) | Failing | Gone

  // `said` is what each goroutine has set out to send so far.
  datatype Link = Link(
    queue: seq<Msg>, wire: seq<Msg>, workers: map<nat, Worker>, said: map<nat, seq<Msg>>, nextRun: nat,
    reader: Reader, errorKept: bool, serving: bool, cancelled: bool)

  datatype Event =
    | Produce(run: nat, chunk: Str)          // a job writes output
    | Finish(run: nat, word: string, exitCode: Option<int>)  // and comes to its end
    | AlsoReport(run: nat)                   // an install reports what is left
    | Enqueue(run: nat)                      // room in the outbox
    | GiveUp(run: nat)                       // the context ended first
    | ServeMsg(works: bool)                  // the loop's branches
    | ServeTick(works: bool)
    | ServeFrame(works: bool)
    | ServeError
    | ServeDone
    | Read(command: Command)                 // the reader
    | ReadFails
    | KeepError
    | ReaderGivesUp
    | Cancel                                 // shutdown, or the caller once the loop is back

  // ---- the steps ------------------------------------------------------------------------------

  predicate Idle(l: Link, run: nat, stage: Stage) { run in l.workers && l.workers[run] == Worker(stage, None) }

  predicate Waits(l: Link, run: nat) { run in l.workers && l.workers[run].offer.Some? }

  predicate Enabled(l: Link, e: Event) {
    match e
    case Produce(run, _) => Idle(l, run, Working)
    case Finish(run, _, _) => Idle(l, run, Working)
    case AlsoReport(run) => Idle(l, run, Ended)
    case Enqueue(run) => Waits(l, run) && |l.queue| < OUTBOX_SIZE
    case GiveUp(run) => Waits(l, run) && l.cancelled
    case ServeMsg(_) => l.serving && l.queue != []
    case ServeTick(_) => l.serving
    case ServeFrame(_) => l.serving && l.reader.Handing?
    case ServeError => l.serving && l.errorKept
    case ServeDone => l.serving && l.cancelled
    case Read(_) => l.reader == Reading
    case ReadFails => l.reader == Reading
    case KeepError => l.reader == Failing && !l.errorKept
    case ReaderGivesUp => l.cancelled && (l.reader.Handing? || l.reader == Failing)
    case Cancel => true
  }

  // A goroutine says something more, and waits to queue it.
  function Say(l: Link, run: nat, stage: Stage, m: Msg): Link
    requires run in l.said
  {
    l.(workers := l.workers[run := Worker(stage, Some(m))], said := l.said[run := l.said[run] + [m]])
  }

  // Past a message, queued or not, a goroutine goes on.
  function GoOn(w: Worker): Worker { Worker(if w.stage == Begun then Working else w.stage, None) }

  function Spawn(l: Link, stage: Stage, m: Msg): Link {
    l.(workers := l.workers[l.nextRun := Worker(stage, Some(m))], said := l.said[l.nextRun := [m]], nextRun := l.nextRun + 1)
  }

  function Wrote(l: Link, m: Msg, works: bool): Link {
    if works then l.(wire := l.wire + [m]) else l.(serving := false)
  }

  function Next(l: Link, e: Event): Link
    requires Enabled(l, e) && l.said.Keys == l.workers.Keys
  {
    match e
    case Produce(run, chunk) => Say(l, run, Working, Output(run, chunk))
    case Finish(run, word, exitCode) => Say(l, run, Ended, Result(run, word, exitCode))
    case AlsoReport(run) => Say(l, run, Reporting, Report(run))
    case Enqueue(run) =>
      l.(queue := l.queue + [l.workers[run].offer.value], workers := l.workers[run := GoOn(l.workers[run])])
    case GiveUp(run) => l.(workers := l.workers[run := GoOn(l.workers[run])])
    case ServeMsg(works) => Wrote(l.(queue := l.queue[1..]), l.queue[0], works)
    case ServeTick(works) => Wrote(l, Direct, works)
    case ServeFrame(works) => (
      match l.reader.command
      case Answered => Wrote(l.(reader := Reading), Direct, works)
      case RunJob => Spawn(l.(reader := Reading), Begun, Started(l.nextRun))
      case Scan => Spawn(l.(reader := Reading), Reporting, Report(l.nextRun))
      case Ignored => l.(reader := Reading))
    case ServeError => l.(errorKept := false, serving := false)
    case ServeDone => l.(serving := false)
    case Read(command) => l.(reader := Handing(command))
    case ReadFails => l.(reader := Failing)
    case KeepError => l.(reader := Gone, errorKept := true)
    case ReaderGivesUp => l.(reader := Gone)
    case Cancel => l.(cancelled := true)
  }

  // An event in which the serve loop writes to the socket, and whether that works.
  predicate Writes(l: Link, e: Event, works: bool) {
    e == ServeMsg(works) || e == ServeTick(works) || (e == ServeFrame(works) && l.reader == Handing(Answered))
  }

  // Who is held up, and by what: a goroutine only by a full queue, the reader only by a loop
  // that is not there to take what it has, and the loop by nothing but its own end.
  lemma HeldUpIff(l: Link, run: nat, chunk: Str, word: string, exitCode: Option<int>)
    requires run in l.workers
    ensures l.workers[run].offer.Some? ==>
              ((Enabled(l, Enqueue(run)) || Enabled(l, GiveUp(run))) <==> |l.queue| < 64 || l.cancelled)
    ensures l.workers[run] == Worker(Working, None) ==> Enabled(l, Produce(run, chunk)) && Enabled(l, Finish(run, word, exitCode))
    ensures l.workers[run] == Worker(Ended, None) ==> Enabled(l, AlsoReport(run))
    ensures l.cancelled && l.workers[run].offer.Some? ==> Enabled(l, GiveUp(run))
  {
  }

  lemma ReaderIsHeldUpIff(l: Link, works: bool)
    ensures l.reader == Reading ==> Enabled(l, ReadFails) && forall command :: Enabled(l, Read(command))
    ensures l.reader.Handing? ==> ((Enabled(l, ServeFrame(works)) || Enabled(l, ReaderGivesUp)) <==> l.serving || l.cancelled)
    ensures l.reader == Failing ==> ((Enabled(l, KeepError) || Enabled(l, ReaderGivesUp)) <==> !l.errorKept || l.cancelled)
    ensures l.cancelled && l.reader != Reading && l.reader != Gone ==> Enabled(l, ReaderGivesUp)
    ensures l.reader == Failing && !l.errorKept ==> Enabled(l, KeepError)
  {
  }

  lemma LoopIsHeldUpIff(l: Link, works: bool)
    ensures Enabled(l, ServeTick(works)) <==> l.serving
    ensures Enabled(l, ServeMsg(works)) <==> l.serving && |l.queue| > 0
    ensures Enabled(l, ServeFrame(works)) <==> l.serving && exists command :: l.reader == Handing(command)
    ensures Enabled(l, ServeError) <==> l.serving && l.errorKept
    ensures Enabled(l, ServeDone) <==> l.serving && l.cancelled
    ensures Enabled(l, Cancel)
  {
  }

  // The loop ends on a kept error, on cancellation and on a write that fails, and only then.
  lemma LoopEndsIff(l: Link, e: Event)
    requires Enabled(l, e) && l.said.Keys == l.workers.Keys
    ensures Next(l, e).serving <==> l.serving && e != ServeError && e != ServeDone && !Writes(l, e, false)
  {
    match e
    case ServeFrame(works) =>
    case _ =>
  }

  lemma WireGrowsIff(l: Link, e: Event)
    requires Enabled(l, e) && l.said.Keys == l.workers.Keys
    ensures var written := if e.ServeMsg? then [l.queue[0]] else [Direct];
            Next(l, e).wire == l.wire + if Writes(l, e, true) then written else []
  {
    match e
    case ServeFrame(works) =>
    case _ =>
  }

  lemma ReaderIs(l: Link, e: Event)
    requires Enabled(l, e) && l.said.Keys == l.workers.Keys
    ensures var after := Next(l, e);
            && (after.errorKept <==> (l.errorKept && e != ServeError) || e == KeepError)
            && (after.cancelled <==> l.cancelled || e == Cancel)
            && after.reader == match e {
                 case ServeFrame(_) => Reading
                 case Read(command) => Handing(command)
                 case ReadFails => Failing
                 case KeepError => Gone
                 case ReaderGivesUp => Gone
                 case _ => l.reader
               }
  {
    match e
    case ServeFrame(works) =>
    case _ =>
  }

  // A job and a scan are given to a goroutine of their own, nothing else is.
  lemma FrameBegins(l: Link, works: bool)
    requires Enabled(l, ServeFrame(works)) && l.said.Keys == l.workers.Keys
    ensures var after, command := Next(l, ServeFrame(works)), l.reader.command;
            && (command == RunJob ==> after.workers == l.workers[l.nextRun := Worker(Begun, Some(Started(l.nextRun)))]
                                      && after.said == l.said[l.nextRun := [Started(l.nextRun)]])
            && (command == Scan ==> after.workers == l.workers[l.nextRun := Worker(Reporting, Some(Report(l.nextRun)))]
                                    && after.said == l.said[l.nextRun := [Report(l.nextRun)]])
            && (command == RunJob || command == Scan ==> after.nextRun == l.nextRun + 1)
            && (command == Answered || command == Ignored ==>
                  after.nextRun == l.nextRun && after.workers == l.workers && after.said == l.said)
  {
  }

  // What a goroutine does next to its messages: it goes on only when they are queued or dropped.
  lemma GoroutineIs(l: Link, e: Event)
    requires Enabled(l, e) && l.said.Keys == l.workers.Keys
    requires e.Produce? || e.Finish? || e.AlsoReport? || e.Enqueue? || e.GiveUp?
    ensures var after := Next(l, e);
            && (e.Produce? ==> after.workers[e.run] == Worker(Working, Some(Output(e.run, e.chunk))))
            && (e.Finish? ==> after.workers[e.run] == Worker(Ended, Some(Result(e.run, e.word, e.exitCode))))
            && (e.AlsoReport? ==> after.workers[e.run] == Worker(Reporting, Some(Report(e.run))))
            && (e.Enqueue? || e.GiveUp? ==>
                  && after.workers[e.run].offer == None
                  && after.workers[e.run].stage == (if l.workers[e.run].stage == Begun then Working else l.workers[e.run].stage))
            && after.queue == l.queue + (if e.Enqueue? then [l.workers[e.run].offer.value] else [])
            && forall r :: r in l.workers && r != e.run ==> r in after.workers && after.workers[r] == l.workers[r]
  {
    match e
    case Produce(run, _) =>
    case Finish(run, _, _) =>
    case _ =>
  }

  const OPENED: Link := Link([], [], map[], map[], 0, Reading, false, true, false)

  // ---- subsequences -----------------------------------------------------------------------------

  ghost predicate Sub(a: seq<Msg>, b: seq<Msg>)
    decreases |b|
  {
    || a == []
    || (b != [] && (Sub(a, b[..|b| - 1]) || (a[|a| - 1] == b[|b| - 1] && Sub(a[..|a| - 1], b[..|b| - 1]))))
  }

  lemma {:induction false} SubSelf(a: seq<Msg>)
    ensures Sub(a, a)
  {
    if a != [] { SubSelf(a[..|a| - 1]); }
  }

  lemma SubMore(a: seq<Msg>, b: seq<Msg>, m: Msg)
    requires Sub(a, b)
    ensures Sub(a + [m], b + [m])
  {
    assert (a + [m])[..|a|] == a && (b + [m])[..|b|] == b;
  }

  lemma {:induction false} SubWithout(x: seq<Msg>, m: Msg, y: seq<Msg>, b: seq<Msg>)
    requires Sub(x + [m] + y, b)
    ensures Sub(x + y, b)
    decreases |b|
  {
    var a := x + [m] + y;
    if x + y != [] {
      var front := b[..|b| - 1];
      if Sub(a, front) {
        SubWithout(x, m, y, front);
      } else if y == [] {
        assert a[..|a| - 1] == x == x + y;
      } else {
        assert a[..|a| - 1] == x + [m] + y[..|y| - 1];
        SubWithout(x, m, y[..|y| - 1], front);
        assert (x + y)[..|x + y| - 1] == x + y[..|y| - 1];
      }
    }
  }

  // ---- the protocol --------------------------------------------------------------------------------

  // Of all messages, those of one goroutine.
  ghost function Of(run: nat, s: seq<Msg>): seq<Msg> {
    if s == [] then []
    else
      var m := s[|s| - 1];
      Of(run, s[..|s| - 1]) + if m != Direct && m.run == run then [m] else []
  }

  // started, output any number of times, one result; then perhaps a report. A scan only reports.
  ghost predicate Spoke(said: seq<Msg>, stage: Stage) {
    match stage
    case Begun => |said| == 1 && said[0].Started?
    case Working => |said| >= 1 && said[0].Started? && forall i :: 1 <= i < |said| ==> said[i].Output?
    case Ended => |said| >= 2 && said[|said| - 1].Result? && Spoke(said[..|said| - 1], Working)
    case Reporting => |said| >= 1 && said[|said| - 1].Report? && (|said| == 1 || Spoke(said[..|said| - 1], Ended))
  }

  ghost function Offered(w: Worker): seq<Msg> { if w.offer.Some? then [w.offer.value] else [] }

  // One goroutine's messages: those on the wire, in the queue and on offer are, in this order,
  // among what it said; all of it while the loop serves, and a prefix on the wire until the
  // context ends.
  ghost predicate Fine(run: nat, w: Worker, said: seq<Msg>, onWire: seq<Msg>, queued: seq<Msg>, serving: bool, cancelled: bool) {
    && Spoke(said, w.stage) && (w.stage == Begun ==> w.offer.Some?)
    && (w.offer.Some? ==> said != [] && w.offer.value == said[|said| - 1] && w.offer.value != Direct && w.offer.value.run == run)
    && Sub(onWire + queued + Offered(w), said)
    && (!cancelled ==> onWire <= said)
    && (!cancelled && serving ==> onWire + queued + Offered(w) == said)
  }

  ghost predicate InOrder(l: Link, run: nat) {
    && run in l.workers && run in l.said
    && Fine(run, l.workers[run], l.said[run], Of(run, l.wire), Of(run, l.queue), l.serving, l.cancelled)
  }

  ghost predicate Numbered(s: seq<Msg>, n: nat) { forall i :: 0 <= i < |s| && s[i] != Direct ==> s[i].run < n }

  ghost predicate Inv(l: Link) {
    && |l.queue| <= OUTBOX_SIZE
    && l.said.Keys == l.workers.Keys && (forall run :: run in l.workers ==> run < l.nextRun)
    && Numbered(l.queue, l.nextRun) && Numbered(l.wire, l.nextRun)
    && forall run :: run in l.workers ==> InOrder(l, run)
  }

  lemma {:induction false} OfConcat(run: nat, a: seq<Msg>, b: seq<Msg>)
    ensures Of(run, a + b) == Of(run, a) + Of(run, b)
  {
    if b == [] {
      assert a + b == a;
    } else {
      assert (a + b)[..|a + b| - 1] == a + b[..|b| - 1];
      OfConcat(run, a, b[..|b| - 1]);
    }
  }

  lemma {:induction false} OfUnknown(run: nat, s: seq<Msg>)
    requires Numbered(s, run)
    ensures Of(run, s) == []
  {
    if s != [] { OfUnknown(run, s[..|s| - 1]); }
  }

  predicate IsOf(run: nat, m: Msg) { m != Direct && m.run == run }

  lemma OfMore(run: nat, s: seq<Msg>, m: Msg)
    ensures Of(run, s + [m]) == if IsOf(run, m) then Of(run, s) + [m] else Of(run, s)
  {
    assert (s + [m])[..|s|] == s;
  }

  lemma OfRest(run: nat, s: seq<Msg>)
    requires s != []
    ensures Of(run, s) == if IsOf(run, s[0]) then [s[0]] + Of(run, s[1..]) else Of(run, s[1..])
  {
    assert s == ([] + [s[0]]) + s[1..];
    OfConcat(run, [] + [s[0]], s[1..]);
    OfMore(run, [], s[0]);
  }

  // ---- one goroutine -----------------------------------------------------------------------------------

  lemma SpokeMore(said: seq<Msg>, stage: Stage, m: Msg)
    requires Spoke(said, stage)
    ensures stage == Working && m.Output? ==> Spoke(said + [m], Working)
    ensures stage == Working && m.Result? ==> Spoke(said + [m], Ended)
    ensures stage == Ended && m.Report? ==> Spoke(said + [m], Reporting)
  {
    assert (said + [m])[..|said|] == said;
  }

  lemma FineSaying(run: nat, w: Worker, said: seq<Msg>, x: seq<Msg>, q: seq<Msg>, serving: bool, cancelled: bool, stage: Stage, m: Msg)
    requires Fine(run, w, said, x, q, serving, cancelled) && w.offer.None?
    requires m != Direct && m.run == run && Spoke(said + [m], stage) && stage != Begun
    ensures Fine(run, Worker(stage, Some(m)), said + [m], x, q, serving, cancelled)
  {
    hide Spoke;
    assert x + q + [] == x + q;
    SubMore(x + q, said, m);
    hide Sub;
  }

  lemma FineQueueing(run: nat, w: Worker, said: seq<Msg>, x: seq<Msg>, q: seq<Msg>, serving: bool, cancelled: bool)
    requires Fine(run, w, said, x, q, serving, cancelled) && w.offer.Some?
    ensures Fine(run, GoOn(w), said, x, q + [w.offer.value], serving, cancelled)
  {
    assert w.stage == Begun ==> Spoke(said, Working);
    assert x + (q + [w.offer.value]) + [] == x + q + [w.offer.value];
    hide Spoke, Sub;
  }

  lemma FineGivingUp(run: nat, w: Worker, said: seq<Msg>, x: seq<Msg>, q: seq<Msg>, serving: bool)
    requires Fine(run, w, said, x, q, serving, true) && w.offer.Some?
    ensures Fine(run, GoOn(w), said, x, q, serving, true)
  {
    assert w.stage == Begun ==> Spoke(said, Working);
    assert x + q + [w.offer.value] + [] == x + q + [w.offer.value];
    hide Spoke, Sub;
    SubWithout(x + q, w.offer.value, [], said);
  }

  lemma FineWriting(run: nat, w: Worker, said: seq<Msg>, x: seq<Msg>, m: Msg, q: seq<Msg>, works: bool, cancelled: bool)
    requires Fine(run, w, said, x, [m] + q, true, cancelled)
    ensures works ==> Fine(run, w, said, x + [m], q, true, cancelled)
    ensures !works ==> Fine(run, w, said, x, q, false, cancelled)
  {
    var y := q + Offered(w);
    assert x + ([m] + q) + Offered(w) == x + [m] + y && x + [m] + q + Offered(w) == x + [m] + y && x + q + Offered(w) == x + y;
    hide Spoke, Sub;
    SubWithout(x, m, y, said);
  }

  lemma FineStopping(run: nat, w: Worker, said: seq<Msg>, x: seq<Msg>, q: seq<Msg>, serving: bool, cancelled: bool, s2: bool, c2: bool)
    requires Fine(run, w, said, x, q, serving, cancelled) && (s2 ==> serving) && (cancelled ==> c2)
    ensures Fine(run, w, said, x, q, s2, c2)
  {
    hide Spoke, Sub;
  }

  lemma FineStart(run: nat, stage: Stage, m: Msg, serving: bool, cancelled: bool)
    requires m != Direct && m.run == run
    requires (stage == Begun && m.Started?) || (stage == Reporting && m.Report?)
    ensures Fine(run, Worker(stage, Some(m)), [m], [], [], serving, cancelled)
  {
    SubSelf([m]);
    assert [] + [] + [m] == [m];
    hide Sub;
  }

  // ---- every step keeps it ------------------------------------------------------------------------

  lemma SayKeeps(l: Link, run: nat, stage: Stage, m: Msg)
    requires Inv(l) && run in l.workers && l.workers[run].offer.None?
    requires m != Direct && m.run == run && Spoke(l.said[run] + [m], stage) && stage != Begun
    ensures Inv(Say(l, run, stage, m))
  {
    hide Spoke, Of, Fine, Sub, Numbered;
    assert InOrder(l, run);
    FineSaying(run, l.workers[run], l.said[run], Of(run, l.wire), Of(run, l.queue), l.serving, l.cancelled, stage, m);
    forall r | r in l.workers
      ensures InOrder(Say(l, run, stage, m), r)
    {
      assert InOrder(l, r);
    }
  }

  lemma SpawnKeeps(l: Link, stage: Stage, m: Msg)
    requires Inv(l) && m != Direct && m.run == l.nextRun
    requires (stage == Begun && m.Started?) || (stage == Reporting && m.Report?)
    ensures Inv(Spawn(l, stage, m))
  {
    hide Spoke, Of, Fine, Sub;
    OfUnknown(l.nextRun, l.queue);
    OfUnknown(l.nextRun, l.wire);
    FineStart(l.nextRun, stage, m, l.serving, l.cancelled);
    forall r | r in l.workers
      ensures InOrder(Spawn(l, stage, m), r)
    {
      assert InOrder(l, r);
    }
  }

  lemma OfferIsOwn(l: Link, run: nat)
    requires InOrder(l, run) && l.workers[run].offer.Some?
    ensures l.workers[run].offer.value != Direct && l.workers[run].offer.value.run == run
  {
    hide Spoke, Sub, Of;
  }

  lemma EnqueueKeeps(l: Link, run: nat)
    requires Inv(l) && Enabled(l, Enqueue(run))
    ensures Inv(Next(l, Enqueue(run)))
  {
    hide Spoke, Of, Fine, Sub;
    var w := l.workers[run];
    assert InOrder(l, run);
    OfferIsOwn(l, run);
    FineQueueing(run, w, l.said[run], Of(run, l.wire), Of(run, l.queue), l.serving, l.cancelled);
    forall r | r in l.workers
      ensures InOrder(Next(l, Enqueue(run)), r)
    {
      assert InOrder(l, r);
      OfMore(r, l.queue, w.offer.value);
    }
  }

  lemma GiveUpKeeps(l: Link, run: nat)
    requires Inv(l) && Enabled(l, GiveUp(run))
    ensures Inv(Next(l, GiveUp(run)))
  {
    hide Spoke, Of, Fine, Sub, Numbered;
    assert InOrder(l, run);
    FineGivingUp(run, l.workers[run], l.said[run], Of(run, l.wire), Of(run, l.queue), l.serving);
    forall r | r in l.workers
      ensures InOrder(Next(l, GiveUp(run)), r)
    {
      assert InOrder(l, r);
    }
  }

  lemma ServeMsgKeeps(l: Link, works: bool)
    requires Inv(l) && Enabled(l, ServeMsg(works))
    ensures Inv(Next(l, ServeMsg(works)))
  {
    hide Spoke, Of, Fine, Sub;
    var m := l.queue[0];
    forall r | r in l.workers
      ensures InOrder(Next(l, ServeMsg(works)), r)
    {
      assert InOrder(l, r);
      OfRest(r, l.queue);
      OfMore(r, l.wire, m);
      if IsOf(r, m) {
        FineWriting(r, l.workers[r], l.said[r], Of(r, l.wire), m, Of(r, l.queue[1..]), works, l.cancelled);
      } else {
        FineStopping(r, l.workers[r], l.said[r], Of(r, l.wire), Of(r, l.queue), true, l.cancelled, works, l.cancelled);
      }
    }
  }

  lemma DirectKeeps(l: Link, works: bool)
    requires Inv(l) && l.serving
    ensures Inv(Wrote(l, Direct, works))
  {
    hide Spoke, Of, Fine, Sub;
    forall r | r in l.workers
      ensures InOrder(Wrote(l, Direct, works), r)
    {
      assert InOrder(l, r);
      OfMore(r, l.wire, Direct);
      FineStopping(r, l.workers[r], l.said[r], Of(r, l.wire), Of(r, l.queue), true, l.cancelled, works, l.cancelled);
    }
  }

  // Steps that leave the messages alone.
  lemma StillInOrder(l: Link, after: Link)
    requires Inv(l)
    requires after == l.(reader := after.reader, errorKept := after.errorKept, serving := after.serving, cancelled := after.cancelled)
    requires after.serving ==> l.serving
    requires l.cancelled ==> after.cancelled
    ensures Inv(after)
  {
    hide Spoke, Of, Fine, Numbered;
    forall r | r in after.workers
      ensures InOrder(after, r)
    {
      assert InOrder(l, r);
      FineStopping(r, l.workers[r], l.said[r], Of(r, l.wire), Of(r, l.queue), l.serving, l.cancelled, after.serving, after.cancelled);
    }
  }

  lemma StepKeeps(l: Link, e: Event)
    requires Inv(l) && Enabled(l, e)
    ensures Inv(Next(l, e))
  {
    hide Spoke, InOrder, Numbered;
    if e.Produce? || e.Finish? || e.AlsoReport? {
      SpokeSoFar(l, e.run);
      var m := if e.Produce? then Output(e.run, e.chunk) else if e.Finish? then Result(e.run, e.word, e.exitCode) else Report(e.run);
      SpokeMore(l.said[e.run], l.workers[e.run].stage, m);
      SayKeeps(l, e.run, if e.Produce? then Working else if e.Finish? then Ended else Reporting, m);
    } else if e.Enqueue? {
      EnqueueKeeps(l, e.run);
    } else if e.GiveUp? {
      GiveUpKeeps(l, e.run);
    } else if e.ServeMsg? {
      ServeMsgKeeps(l, e.works);
    } else if e.ServeTick? {
      DirectKeeps(l, e.works);
    } else if e.ServeFrame? {
      var heard := l.(reader := Reading);
      StillInOrder(l, heard);
      match l.reader.command
      case Answered => DirectKeeps(heard, e.works);
      case RunJob => SpawnKeeps(heard, Begun, Started(l.nextRun));
      case Scan => SpawnKeeps(heard, Reporting, Report(l.nextRun));
      case Ignored =>
    } else {
      StillInOrder(l, Next(l, e));
    }
  }

  lemma SpokeSoFar(l: Link, run: nat)
    requires Inv(l) && run in l.workers
    ensures Spoke(l.said[run], l.workers[run].stage)
  {
    assert InOrder(l, run);
  }

  // ---- runs -------------------------------------------------------------------------------------------

  ghost predicate Possible(l: Link, es: seq<Event>)
    requires Inv(l)
    decreases |es|
  {
    es == [] || (Enabled(l, es[0]) && (StepKeeps(l, es[0]); Possible(Next(l, es[0]), es[1..])))
  }

  ghost function Run(l: Link, es: seq<Event>): (after: Link)
    requires Inv(l) && Possible(l, es)
    ensures Inv(after)
    decreases |es|
  {
    if es == [] then l else (StepKeeps(l, es[0]); Run(Next(l, es[0]), es[1..]))
  }

  lemma OpenedIsInv()
    ensures Inv(OPENED)
  {
  }

  // While the connection is up, what reached the wire of each goroutine is a prefix of what
  // it said: started, its output in order, one result.
  lemma WireIsPrefix(es: seq<Event>, run: nat)
    requires Inv(OPENED) && Possible(OPENED, es)
    ensures var l := Run(OPENED, es);
            && |l.queue| <= 64
            && (run in l.workers ==>
                  && Spoke(l.said[run], l.workers[run].stage)
                  && Sub(Of(run, l.wire), l.said[run])
                  && (!l.cancelled ==> Of(run, l.wire) <= l.said[run]))
  {
    hide Spoke, Of, Sub, Fine;
    var l := Run(OPENED, es);
    if run in l.workers {
      assert InOrder(l, run);
      FineOnWire(run, l.workers[run], l.said[run], Of(run, l.wire), Of(run, l.queue), l.serving, l.cancelled);
    }
  }

  lemma FineOnWire(run: nat, w: Worker, said: seq<Msg>, x: seq<Msg>, q: seq<Msg>, serving: bool, cancelled: bool)
    requires Fine(run, w, said, x, q, serving, cancelled)
    ensures Spoke(said, w.stage) && Sub(x, said) && (!cancelled ==> x <= said)
  {
    hide Spoke, Sub;
    assert x + q + Offered(w) == x + (q + Offered(w));
    SubFront(x, q + Offered(w), said);
  }

  lemma {:induction false} SubFront(x: seq<Msg>, y: seq<Msg>, b: seq<Msg>)
    requires Sub(x + y, b)
    ensures Sub(x, b)
    decreases |y|
  {
    if y == [] {
      assert x + y == x;
    } else {
      var front := y[..|y| - 1];
      assert x + y == (x + front) + [y[|y| - 1]] + [];
      SubWithout(x + front, y[|y| - 1], [], b);
      assert (x + front) + [] == x + front;
      SubFront(x, front, b);
    }
  }

  // ---- one result ---------------------------------------------------------------------------------------

  ghost function Results(s: seq<Msg>): nat {
    if s == [] then 0 else Results(s[..|s| - 1]) + if s[|s| - 1].Result? then 1 else 0
  }

  lemma {:induction false} SubResults(a: seq<Msg>, b: seq<Msg>)
    requires Sub(a, b)
    ensures Results(a) <= Results(b)
    decreases |b|
  {
    if a != [] {
      var front := b[..|b| - 1];
      if Sub(a, front) { SubResults(a, front); } else { SubResults(a[..|a| - 1], front); }
    }
  }

  lemma {:induction false} NoResultYet(said: seq<Msg>)
    requires Spoke(said, Working)
    ensures Results(said) == 0
  {
    if |said| == 1 {
      assert said[..0] == [];
    } else {
      NoResultYet(said[..|said| - 1]);
    }
  }

  lemma ResultsSaid(said: seq<Msg>, stage: Stage)
    requires Spoke(said, stage)
    ensures Results(said) == if stage == Ended || (stage == Reporting && |said| > 1) then 1 else 0
  {
    var front := said[..|said| - 1];
    if stage == Begun {
      assert front == [];
    } else if stage == Working {
      NoResultYet(said);
    } else if stage == Ended {
      NoResultYet(front);
    } else if |said| > 1 {
      NoResultYet(front[..|front| - 1]);
    } else {
      assert front == [];
    }
  }

  // A goroutine that ran a job to its end has said one result, and the wire has it at most
  // once, whatever was given up.
  lemma OneResult(l: Link, run: nat)
    requires Inv(l) && run in l.workers
    ensures Results(Of(run, l.wire)) <= Results(l.said[run]) <= 1
    ensures Results(l.said[run]) == 1 <==> l.workers[run].stage == Ended || (l.workers[run].stage == Reporting && |l.said[run]| > 1)
  {
    hide Spoke, Of, Sub, Fine, Results;
    assert InOrder(l, run);
    var w, said := l.workers[run], l.said[run];
    FineOnWire(run, w, said, Of(run, l.wire), Of(run, l.queue), l.serving, l.cancelled);
    SubResults(Of(run, l.wire), said);
    ResultsSaid(said, w.stage);
  }

  // ---- nobody is stuck ------------------------------------------------------------------------------------

  // A full outbox is only ever full of work for the loop, and one message makes room for
  // whoever waits.
  lemma FullOutboxMoves(l: Link)
    requires Inv(l) && l.serving && |l.queue| == OUTBOX_SIZE
    ensures Enabled(l, ServeMsg(true))
    ensures forall run :: Waits(l, run) ==> !Enabled(l, Enqueue(run)) && Enabled(Next(l, ServeMsg(true)), Enqueue(run))
  {
    hide InOrder, Numbered;
  }

  // There is room for a message until 64 wait.
  lemma RoomForSixtyFour(l: Link, run: nat)
    requires Waits(l, run)
    ensures Enabled(l, Enqueue(run)) <==> |l.queue| <= 63
  {
  }

  ghost function Waiting(l: Link): set<nat> { set run | run in l.workers && l.workers[run].offer.Some? }

  lemma Then(l: Link, e: Event, es: seq<Event>)
    requires Inv(l) && Enabled(l, e) && (StepKeeps(l, e); Possible(Next(l, e), es))
    ensures Possible(l, [e] + es)
    ensures Run(l, [e] + es) == (StepKeeps(l, e); Run(Next(l, e), es))
  {
    hide Inv, Enabled, Next;
    assert ([e] + es)[1..] == es;
  }

  // Left alone, the loop and the goroutines that wait bring everything said onto the wire.
  lemma {:induction false} EverythingGetsThrough(l: Link) returns (es: seq<Event>)
    requires Inv(l) && l.serving && !l.cancelled
    ensures Possible(l, es)
    ensures var after := Run(l, es);
            && after.said == l.said && after.queue == [] && Waiting(after) == {}
            && forall run :: run in l.said ==> Of(run, after.wire) == l.said[run]
    decreases |Waiting(l)|, |l.queue|
  {
    hide InOrder, Of, Numbered;
    if l.queue != [] {
      StepKeeps(l, ServeMsg(true));
      var next := Next(l, ServeMsg(true));
      assert Waiting(next) == Waiting(l);
      es := EverythingGetsThrough(next);
      Then(l, ServeMsg(true), es);
      es := [ServeMsg(true)] + es;
    } else if Waiting(l) != {} {
      var run :| run in Waiting(l);
      StepKeeps(l, Enqueue(run));
      var next := Next(l, Enqueue(run));
      assert Waiting(next) == Waiting(l) - {run};
      es := EverythingGetsThrough(next);
      Then(l, Enqueue(run), es);
      es := [Enqueue(run)] + es;
    } else {
      es := [];
      forall run | run in l.said
        ensures Of(run, l.wire) == l.said[run]
      {
        AllIsOnTheWire(l, run);
      }
    }
  }

  lemma AllIsOnTheWire(l: Link, run: nat)
    requires Inv(l) && l.serving && !l.cancelled && l.queue == [] && run in l.said && run !in Waiting(l)
    ensures Of(run, l.wire) == l.said[run]
  {
    assert InOrder(l, run);
    assert Of(run, l.wire) + Of(run, []) + [] == Of(run, l.wire);
    hide Spoke, Sub;
  }

  // Once the context has ended everyone who waits can stop waiting, room in the outbox or not:
  // the loop, the reader, and every goroutine with something to queue.
  lemma {:induction false} EveryoneGetsAway(l: Link) returns (es: seq<Event>)
    requires Inv(l) && l.cancelled
    ensures Possible(l, es) && forall e :: e in es ==> e.ServeDone? || e.ReadFails? || e.ReaderGivesUp? || e.GiveUp?
    ensures var after := Run(l, es); Waiting(after) == {} && after.reader == Gone && !after.serving && after.queue == l.queue
    decreases l.serving, if l.reader == Reading then 2 else if l.reader == Gone then 0 else 1, |Waiting(l)|
  {
    hide InOrder, Of, Numbered;
    var e := if l.serving then ServeDone
             else if l.reader == Reading then ReadFails
             else if l.reader != Gone then ReaderGivesUp
             else if Waiting(l) != {} then var run :| run in Waiting(l); GiveUp(run)
             else Cancel;
    if e == Cancel {
      es := [];
    } else {
      StepKeeps(l, e);
      var next := Next(l, e);
      assert Waiting(next) == if e.GiveUp? then Waiting(l) - {e.run} else Waiting(l);
      es := EveryoneGetsAway(next);
      Then(l, e, es);
      es := [e] + es;
    }
  }
}
