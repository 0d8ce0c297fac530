// One job row under storage functions that overlap: append_output and sweep_stale read the row
// first and write to it later, the others are one guarded statement each.
module JobRaces {
  import opened Text
  import opened Wrappers
  import J = Jobs

  // An append between its read and its write: the chunks it found, its own, the text it is
  // about to store, and how many chunks had been written by then.
  datatype Draft = Draft(base: seq<Str>, chunk: Str, text: Str, at: nat)

  // `log` is the chunks the output was last made of; `reason` stands in its place once a
  // queued job has failed undispatched.
  datatype System = System(row: J.Job, log: seq<Str>, reason: Option<Str>, selected: bool, drafts: map<nat, Draft>, writes: nat)

  datatype Event =
    | Started
    | Finished(status: J.Status, exitCode: Option<int>)
    | Undispatched(reason: Str)
    | Read(h: nat, chunk: Str)
    | Write(h: nat)
    | Select(cutoff: int, patchCutoff: int)
    | TimeOut

  predicate Takes(j: J.Job, chunk: Str) {
    chunk != [] && !J.Terminal(j.status) && J.ByteLen(j.output) < J.MAX_OUTPUT_BYTES && J.Encodable(chunk)
  }

  function Step(s: System, e: Event): System {
    match e
    case Started => s.(row := J.Start(s.row))
    case Finished(status, exitCode) => s.(row := J.Finish(s.row, status, exitCode))
    case Undispatched(reason) =>
      s.(row := J.FailUndispatched(s.row, reason), reason := if s.row.status == J.Queued then Some(reason) else s.reason)
    case Read(h, chunk) =>
      if Takes(s.row, chunk)
      then s.(drafts := s.drafts[h := Draft(s.log, chunk, J.Append(s.row, chunk).output, s.writes)])
      else s.(drafts := s.drafts - {h})
    case Write(h) =>
      if h !in s.drafts then s
      else
        var d := s.drafts[h];
        System(s.row.(output := d.text), d.base + [d.chunk], None, s.selected, s.drafts - {h}, s.writes + 1)
    case Select(cutoff, patchCutoff) => s.(selected := J.IsStale(s.row, cutoff, patchCutoff))
    case TimeOut => if s.selected then s.(row := s.row.(status := J.Timeout), selected := false) else s
  }

  function Run(s: System, es: seq<Event>): System
    decreases |es|
  {
    if es == [] then s else Step(Run(s, es[..|es| - 1]), es[|es| - 1])
  }

  ghost predicate Fine(d: Draft) { d.text == J.Stored(d.base + [d.chunk]) && J.Encodable(d.chunk) }

  // The output is the closed form of its chunks, or the reason of a job that has ended.
  ghost predicate Inv(s: System) {
    && (if s.reason.None? then s.row.output == J.Stored(s.log) else s.row.output == s.reason.value && J.Terminal(s.row.status))
    && (forall h :: h in s.drafts ==> Fine(s.drafts[h]))
  }

  lemma StepKeepsInv(s: System, e: Event)
    requires Inv(s)
    ensures Inv(Step(s, e))
  {
    hide J.Stored, J.Append, J.ByteLen, J.Encodable;
    if e.Read? && Takes(s.row, e.chunk) {
      J.AppendStep(s.row, s.log, e.chunk);
    }
  }

  lemma {:induction false} RunKeepsInv(s: System, es: seq<Event>)
    requires Inv(s)
    ensures Inv(Run(s, es))
    decreases |es|
  {
    if es != [] {
      RunKeepsInv(s, es[..|es| - 1]);
      StepKeepsInv(Run(s, es[..|es| - 1]), es[|es| - 1]);
    }
  }

  // ---- no chunk is lost --------------------------------------------------------------------

  // The chunks written in a run, in the order of their writes.
  function Written(s: System, es: seq<Event>): seq<Str>
    decreases |es|
  {
    if es == [] then []
    else
      var e, before := es[|es| - 1], Run(s, es[..|es| - 1]);
      Written(s, es[..|es| - 1]) + if e.Write? && e.h in before.drafts then [before.drafts[e.h].chunk] else []
  }

  // No write comes between the read of an append and its own.
  ghost predicate NoOverlap(s: System, es: seq<Event>)
    decreases |es|
  {
    es == [] ||
    var e, before := es[|es| - 1], Run(s, es[..|es| - 1]);
    NoOverlap(s, es[..|es| - 1]) && (e.Write? && e.h in before.drafts ==> before.drafts[e.h].at == before.writes)
  }

  // An append never read more chunks than had been written, and sees all there are unless one
  // has been written since.
  ghost predicate Counted(s: System, t: System, written: nat) {
    && t.writes == s.writes + written && |t.log| <= |s.log| + written
    && forall h :: h in t.drafts ==>
         && s.writes <= t.drafts[h].at <= t.writes
         && |t.drafts[h].base| <= |s.log| + (t.drafts[h].at - s.writes)
         && (t.drafts[h].at == t.writes ==> t.drafts[h].base == t.log)
  }

  lemma StepIsCounted(s: System, t: System, e: Event, written: nat)
    requires Counted(s, t, written)
    ensures Counted(s, Step(t, e), written + if e.Write? && e.h in t.drafts then 1 else 0)
  {
    hide J.Append, J.IsStale, Takes, J.Start, J.Finish, J.FailUndispatched;
    var after := Step(t, e);
    if e.Write? && e.h in t.drafts {
      assert forall h :: h in after.drafts ==> h in t.drafts && after.drafts[h] == t.drafts[h] && after.drafts[h].at < after.writes;
    } else if !e.Read? {
      assert after.log == t.log && after.drafts == t.drafts && after.writes == t.writes;
    }
  }

  lemma {:induction false} RunIsCounted(s: System, es: seq<Event>)
    requires s.drafts == map[]
    ensures Counted(s, Run(s, es), |Written(s, es)|)
    decreases |es|
  {
    hide Step, Counted;
    if es == [] {
      NothingCounted(s);
    } else {
      var before := Run(s, es[..|es| - 1]);
      RunIsCounted(s, es[..|es| - 1]);
      StepIsCounted(s, before, es[|es| - 1], |Written(s, es[..|es| - 1])|);
    }
  }

  lemma NothingCounted(s: System)
    requires s.drafts == map[]
    ensures Counted(s, s, 0)
  {
  }

  // Over any run of overlapping appends the log has every written chunk, in the order of the
  // writes, exactly if no two appends overlapped.
  lemma {:induction false} NoChunkIsLostIff(s: System, es: seq<Event>)
    requires s.drafts == map[]
    ensures Run(s, es).log == s.log + Written(s, es) <==> NoOverlap(s, es)
    decreases |es|
  {
    hide J.Append, J.IsStale, Takes, Counted;
    if es == [] {
      assert s.log + [] == s.log;
    } else {
      var front, e := es[..|es| - 1], es[|es| - 1];
      var before := Run(s, front);
      NoChunkIsLostIff(s, front);
      RunIsCounted(s, front);
      if e.Write? && e.h in before.drafts {
        LastWrite(s, before, e.h, Written(s, front));
      } else {
        assert Written(s, es) == Written(s, front) + [] == Written(s, front);
      }
    }
  }

  lemma LastWrite(s: System, before: System, h: nat, written: seq<Str>)
    requires Counted(s, before, |written|) && h in before.drafts
    ensures var d := before.drafts[h];
            d.base + [d.chunk] == s.log + (written + [d.chunk]) <==> d.at == before.writes && before.log == s.log + written
  {
    var d := before.drafts[h];
    assert s.log + (written + [d.chunk]) == (s.log + written) + [d.chunk];
    if d.base + [d.chunk] == (s.log + written) + [d.chunk] {
      assert d.base == (d.base + [d.chunk])[..|d.base|];
      assert d.base == s.log + written;
    }
  }

  // Such a run: append_output is called twice at once, and the second write undoes the first.
  // One socket never does that, it handles a report at a time; two sockets of a device that
  // report on the same job can.
  lemma OverlapLosesAChunk(j: J.Job, a: Str, b: Str)
    requires Takes(j, a) && Takes(j, b)
    ensures var es := [Read(0, a), Read(1, b), Write(0), Write(1)];
            var s := Run(System(j, [], None, false, map[], 0), es);
            s.row == J.Append(j, b) && s.log == [b]
  {
    hide J.Append, Takes, Run;
    var s := System(j, [], None, false, map[], 0);
    var one, two := Step(s, Read(0, a)), Step(Step(s, Read(0, a)), Read(1, b));
    FourSteps(s, Read(0, a), Read(1, b), Write(0), Write(1));
    assert two.drafts[0] == Draft([], a, J.Append(j, a).output, 0) && two.drafts[1] == Draft([], b, J.Append(j, b).output, 0);
    assert Step(two, Write(0)).drafts[1] == two.drafts[1] && [] + [b] == [b];
    AppendKeepsTheRest(j, b);
  }

  lemma FourSteps(s: System, e1: Event, e2: Event, e3: Event, e4: Event)
    ensures Run(s, [e1, e2, e3, e4]) == Step(Step(Step(Step(s, e1), e2), e3), e4)
  {
    hide Step;
    var es := [e1, e2, e3, e4];
    assert es[..3] == [e1, e2, e3] && es[..3][..2] == [e1, e2] && es[..3][..2][..1] == [e1] && es[..3][..2][..1][..0] == [];
    assert Run(s, [e1]) == Step(s, e1);
    assert Run(s, [e1, e2]) == Step(Run(s, [e1]), e2);
    assert Run(s, [e1, e2, e3]) == Step(Run(s, [e1, e2]), e3);
  }

  lemma AppendKeepsTheRest(j: J.Job, chunk: Str)
    ensures j.(output := J.Append(j, chunk).output) == J.Append(j, chunk)
  {
  }

  // ---- final rows --------------------------------------------------------------------------

  // A step changes a final row exactly if it is a late write: a sweep that selected the row
  // before it ended otherwise, or an append that read it before and comes to another text.
  lemma FinalMovesIff(s: System, e: Event)
    requires J.Terminal(s.row.status)
    ensures Step(s, e).row != s.row <==>
            || (e.TimeOut? && s.selected && s.row.status != J.Timeout)
            || (e.Write? && e.h in s.drafts && s.drafts[e.h].text != s.row.output)
    ensures J.Terminal(Step(s, e).row.status)
    ensures Step(s, e).selected ==> s.selected
    ensures Step(s, e).drafts.Keys <= s.drafts.Keys
  {
    hide J.Append;
  }

  // With nothing on its way it is final for good, whatever comes.
  lemma {:induction false} FinalForGood(s: System, es: seq<Event>)
    requires J.Terminal(s.row.status) && !s.selected && s.drafts == map[]
    ensures Run(s, es).row == s.row && !Run(s, es).selected && Run(s, es).drafts == map[]
    decreases |es|
  {
    if es != [] {
      FinalForGood(s, es[..|es| - 1]);
      FinalMovesIff(Run(s, es[..|es| - 1]), es[|es| - 1]);
      hide Step;
    }
  }

  // Such a late write: the sweep selects an old job, the job is done, and ends up timed out.
  lemma DoneBecomesTimeout(j: J.Job)
    requires J.IsStale(j, 100, 100)
    ensures var es := [Select(100, 100), Finished(J.Done, Some(0)), TimeOut];
            Run(System(j, [], None, false, map[], 0), es).row == j.(status := J.Timeout, exitCode := Some(0))
  {
    hide J.IsStale;
    var es := [Select(100, 100), Finished(J.Done, Some(0)), TimeOut];
    var s := System(j, [], None, false, map[], 0);
    assert es[..2] == [Select(100, 100), Finished(J.Done, Some(0))] && es[..2][..1] == [Select(100, 100)] && es[..2][..1][..0] == [];
    assert Run(s, es[..2][..1]) == Step(s, Select(100, 100));
    assert !J.Terminal(j.status) by { StaleIsOpen(j); }
  }

  lemma StaleIsOpen(j: J.Job)
    requires J.IsStale(j, 100, 100)
    ensures !J.Terminal(j.status)
  {
  }

  // ---- in one piece --------------------------------------------------------------------------

  function Piecewise(e: J.Event): seq<Event> {
    match e
    case Started => [Started]
    case Output(chunk) => [Read(0, chunk), Write(0)]
    case Finished(status, exitCode) => [Finished(status, exitCode)]
    case Undispatched(reason) => [Undispatched(reason)]
    case Swept(cutoff, patchCutoff) => [Select(cutoff, patchCutoff), TimeOut]
  }

  function AllPieces(es: seq<J.Event>): seq<Event> {
    if es == [] then [] else AllPieces(es[..|es| - 1]) + Piecewise(es[|es| - 1])
  }

  lemma {:induction false} RunConcat(s: System, a: seq<Event>, b: seq<Event>)
    ensures Run(s, a + b) == Run(Run(s, a), b)
    decreases |b|
  {
    if b == [] {
      assert a + b == a;
    } else {
      assert (a + b)[..|a + b| - 1] == a + b[..|b| - 1];
      RunConcat(s, a, b[..|b| - 1]);
    }
  }

  // Nothing is on its way.
  predicate Quiet(s: System) { !s.selected && s.drafts == map[] }

  lemma OnePiece(s: System, e: J.Event)
    requires Quiet(s)
    ensures var t := Run(s, Piecewise(e)); Quiet(t) && t.row == J.Apply(s.row, e)
  {
    hide J.ByteLen, J.Cut, J.Encodable;
    var es := Piecewise(e);
    assert es[..1][..0] == [];
    if |es| == 2 {
      assert es[..1] == [es[0]];
      assert Run(s, es[..1]) == Step(s, es[0]);
    }
  }

  // One after the other, the storage functions are the row events everything else is about.
  lemma {:induction false} OneAfterTheOther(s: System, es: seq<J.Event>)
    requires Quiet(s)
    ensures var t := Run(s, AllPieces(es)); Quiet(t) && t.row == J.Run(s.row, es)
    decreases |es|
  {
    hide Quiet, Piecewise, J.Apply, Run;
    if es == [] {
      assert Run(s, AllPieces(es)) == s by { NothingRuns(s); }
    } else {
      var front, last := es[..|es| - 1], es[|es| - 1];
      OneAfterTheOther(s, front);
      RunConcat(s, AllPieces(front), Piecewise(last));
      OnePiece(Run(s, AllPieces(front)), last);
      assert es == front + [last] && es[|front|..] == [last];
      J.RunSplit(s.row, es, |front|);
      assert [last][1..] == [];
      assert J.Run(J.Run(s.row, front), [last]) == J.Apply(J.Run(s.row, front), last);
    }
  }

  lemma NothingRuns(s: System)
    ensures Run(s, []) == s
  {
  }
}
