// What the filter guarantees about secrets, memory and ordinary output.
module FilterProperties {
  import opened Text
  import opened Wrappers
  import opened SecretLines
  import opened LineVerdicts
  import opened SecretFilter
  import opened Marker
  import opened Json

  // ---- memory --------------------------------------------------------------------------

  // In every reachable state the held fragment is short, and it is lead followed by the
  // marker or a beginning of it; a complete line is held only as a marker line whose CR
  // may be half of a CRLF.
  lemma HeldFragmentIsBounded(rule: LineRule, t: Str)
    requires ModeOf(Run(rule, t).open).Hold?
    ensures var held := ModeOf(Run(rule, t).open).text;
            && |held| <= MAX_LINE + 1
            && MightBeMarker(held)
            && (|held| == MAX_LINE + 1 ==> LastIs(held, CR))
            && (EndsLine(held) ==> IsMarkerLine(held) && LastIs(held, CR))
  {
    hide Run, Settled;
    HeldIsBounded(Run(rule, t).open);
  }

  lemma HeldIsBounded(open: Str)
    requires IsOpen(open) && ModeOf(open).Hold?
    ensures |open| <= MAX_LINE + 1
    ensures MightBeMarker(open)
    ensures |open| == MAX_LINE + 1 ==> LastIs(open, CR)
    ensures EndsLine(open) ==> IsMarkerLine(open) && LastIs(open, CR)
  {
    hide Settled, Lead, CouldBecomeMarker, StartsMarker, TooLongFrom;
    if EndsLine(open) {
      AfterCr(open, []);
      MarkerLinesMight(open);
    }
    if ContentLen(open) > MAX_LINE {
      TooLongByHead(open);
      MightOfHead(open);
    }
  }

  lemma MarkerLinesMight(t: Str)
    requires IsMarkerLine(t)
    ensures MightBeMarker(t)
  {
  }

  lemma MightOfHead(t: Str)
    requires |t| > MAX_LINE && MightBeMarker(t)
    ensures MightBeMarker(t[..MAX_LINE + 1])
  {
    assert t[..MAX_LINE + 1] + t[MAX_LINE + 1..] == t;
    MightBeMarkerShrinks(t[..MAX_LINE + 1], t[MAX_LINE + 1..]);
  }

  // ---- ordinary output -----------------------------------------------------------------

  ghost predicate IsOrdinary(line: Str) {
    IsPlain(line) && (EndsLine(line) || !MightBeMarker(line))
  }

  // Output without marker lines goes out unchanged, and all of it at once, however far
  // its last line has got: only the beginning of a marker line is ever waited for.
  lemma {:induction false} OrdinaryOutputPasses(parse: Parser, t: Str)
    requires forall l :: l in Lines(t) ==> IsOrdinary(l)
    ensures Emitted(Sanitizer(parse), t) == SecretLines.Plain(t)
  {
    hide Settled, LineEnd, Process, IsPlain, MightBeMarker;
    if t == [] {
      NothingEmitted(Sanitizer(parse));
    } else {
      var e := LineEnd(t);
      NextOfLines(t);
      assert t[..e] in Lines(t);
      if Settled(t) {
        OrdinaryOutputPasses(parse, t[e..]);
        OrdinaryLinePasses(parse, t[..e], t[e..]);
        assert t == t[..e] + t[e..];
      } else {
        OpenLineIsLast(t);
        OrdinaryLineShows(t);
        JoinLaws(SecretLines.Plain(t), Nothing, Nothing);
      }
    }
  }

  lemma OrdinaryLinePasses(parse: Parser, line: Str, rest: Str)
    requires IsOrdinary(line)
    requires Emitted(Sanitizer(parse), rest) == SecretLines.Plain(rest)
    ensures var r := Run(Sanitizer(parse), rest);
            Join(Join(Sanitizer(parse)(line), r.done), SecretLines.Plain(Shown(r.open))) == SecretLines.Plain(line + rest)
  {
    hide Run, Shown, Process;
    PlainIsUnchanged(parse, line);
    var r := Run(Sanitizer(parse), rest);
    JoinLaws(SecretLines.Plain(line), r.done, SecretLines.Plain(Shown(r.open)));
  }

  lemma OrdinaryLineShows(open: Str)
    requires IsOrdinary(open)
    ensures Shown(open) == open
  {
  }

  lemma OpenLineIsLast(t: Str)
    requires t != [] && IsOpen(t)
    ensures t[..LineEnd(t)] == t
  {
  }

  // ---- what is out is out --------------------------------------------------------------

  // A line that goes on from what is shown of it: the whole line begins with that, or is
  // still open and shows that and perhaps more.
  lemma LineBeginsAsShown(parse: Parser, open: Str, y: Str)
    requires IsOpen(open) && !EndsLine(open) && open != []
    ensures Shown(open) <= Process(parse, open + y).out
    ensures Shown(open) <= Shown(open + y)
  {
    hide LeadEnd, ProcessFrom, TooLongFrom, CouldBecomeMarker, StartsMarker;
    TakeFacts(parse, open + y);
    if TooLong(open) {
      TooLongStays(open, y);
    } else if !ModeOf(open).Hold? {
      PlainFragmentStays(open, y);
    }
  }

  lemma RestOfOpenLine(parse: Parser, open: Str, x: Str)
    requires IsOpen(open) && open != [] && x != []
    ensures Shown(open) <= Emitted(Sanitizer(parse), open + x).out
  {
    hide Run, Settled, Process, Shown, TooLong, IsMarkerLine, MightBeMarker, LineEnd, BreakAt;
    var rule := Sanitizer(parse);
    ModeTells(open);
    if !EndsLine(open) {
      var line, rest := open + x[..LineEnd(x)], x[LineEnd(x)..];
      AfterFragment(open, x);
      FirstLineEnds(line, rest);
      LineBeginsAsShown(parse, open, x[..LineEnd(x)]);
      if Settled(line + rest) {
        FirstLineIsOut(rule, line, rest);
        assert rule(line) == Process(parse, line);
      } else {
        assert rest == [] && line + rest == line;
        OpenIsUnread(rule, line);
      }
    } else if ModeOf(open).SwallowingLf? {
      DroppedLineEnds(parse, open, x);
      FirstLineIsOut(rule, if x[0] == LF then open + [LF] else open, if x[0] == LF then x[1..] else x);
    } else if ModeOf(open).Clear? {
      PlainLineIsOver(parse, Nothing, open, x);
      assert AheadOf(rule, Nothing, open + x).done == Join(Join(Nothing, SecretLines.Plain(open)), Run(rule, x).done);
      JoinLaws(Run(rule, open + x).done, Nothing, Nothing);
    } else {
      assert ModeOf(open).Hold?;
    }
  }

  lemma FirstLineIsOut(rule: LineRule, line: Str, rest: Str)
    requires IsFirstLine(line, rest) && Settled(line + rest)
    ensures rule(line).out <= Emitted(rule, line + rest).out
  {
    AheadPastLine(rule, Nothing, line, rest);
    JoinLaws(rule(line), Nothing, Nothing);
    JoinLaws(Run(rule, line + rest).done, Nothing, Nothing);
    hide Run, Shown;
    assert Run(rule, line + rest).done == Join(rule(line), Run(rule, rest).done);
  }

  lemma OpenIsUnread(rule: LineRule, line: Str)
    requires IsOpen(line)
    ensures Run(rule, line) == Progress(Nothing, line)
  {
  }

  // Nothing passed on, text or credential, is ever taken back: what the rest of the output
  // comes to only adds to it, and so does the end of the job.
  lemma NothingIsTakenBack(parse: Parser, t: Str, x: Str)
    ensures var a, b, w := Emitted(Sanitizer(parse), t), Emitted(Sanitizer(parse), t + x), Whole(Sanitizer(parse), t);
            a.out <= b.out && a.found <= b.found && a.out <= w.out && a.found <= w.found
  {
    hide Run, Process, Shown, Whole, ModeOf;
    var rule := Sanitizer(parse);
    var r := Run(rule, t);
    RunAppend(rule, t, x);
    WholeIsRunThenOpen(rule, t);
    LastLine(parse, r.done, r.open);
    if r.open == [] {
      NoLineShown();
    } else if x == [] {
      assert r.open + x == r.open && t + x == t;
    } else {
      RestOfOpenLine(parse, r.open, x);
    }
  }

  lemma NoLineShown()
    ensures Shown([]) == []
  {
  }

  // ---- secrets -------------------------------------------------------------------------

  // What a viewer of the log learns from a line.
  datatype Verdict = Verbatim(line: Str) | Oversized | Malformed | Stored(title: Str)

  function VerdictOn(parse: Parser, line: Str): Verdict {
    if TooLong(line) then Oversized
    else if IsMarkerLine(line) then
      match parse(line[Lead(line) + |MARKER|..])
      case Some(cred) => Stored(cred.title)
      case None => Malformed
    else Verbatim(line)
  }

  // The open line may still turn out to be a marker line, or is one.
  predicate MarkerIsComing(open: Str) {
    open != [] && MightBeMarker(open) && (EndsLine(open) ==> IsMarkerLine(open))
  }

  // While a line that begins like a marker line is coming in, nothing of it is passed on
  // but the note that it is too long.
  lemma NothingOfAMarkerLineShows(open: Str)
    requires MarkerIsComing(open)
    ensures Shown(open) == [] || Shown(open) == NOTE_TOO_LONG
  {
  }

  // The same of a stream: at every moment in which a marker line is coming in, the log
  // holds what the lines before it came to, at most that note, and nothing of the line.
  method FilterWithoutLeak(parse: Parser, chunks: seq<Str>) returns (outs: seq<Str>, rest: Str, f: seq<Credential>)
    ensures Piece(Concat(outs) + rest, f) == Whole(Sanitizer(parse), Concat(chunks))
    ensures |outs| == |chunks|
    ensures forall k :: 0 <= k <= |chunks| && MarkerIsComing(Run(Sanitizer(parse), Concat(chunks[..k])).open) ==>
              var before := Run(Sanitizer(parse), Concat(chunks[..k])).done.out;
              Concat(outs[..k]) in {before, before + NOTE_TOO_LONG}
  {
    hide Whole, Concat, Run, MarkerIsComing, Shown;
    outs, rest, f := FilterJob(parse, chunks);
    forall k | 0 <= k <= |chunks| && MarkerIsComing(Run(Sanitizer(parse), Concat(chunks[..k])).open)
      ensures Concat(outs[..k]) == Run(Sanitizer(parse), Concat(chunks[..k])).done.out
        || Concat(outs[..k]) == Run(Sanitizer(parse), Concat(chunks[..k])).done.out + NOTE_TOO_LONG
    {
      var r := Run(Sanitizer(parse), Concat(chunks[..k]));
      NothingOfAMarkerLineShows(r.open);
      assert r.done.out + [] == r.done.out;
    }
  }

  ghost predicate SameToTheEye(parse: Parser, a: seq<Str>, b: seq<Str>) {
    |a| == |b| && forall i :: 0 <= i < |a| ==> VerdictOn(parse, a[i]) == VerdictOn(parse, b[i])
  }

  // The log of a job is a function of the verdicts alone: two runs that differ only in
  // what their marker lines carry besides the label leave the same log.
  lemma {:induction false} LogIndependentOfSecrets(parse: Parser, a: seq<Str>, b: seq<Str>)
    requires SameToTheEye(parse, a, b)
    ensures ProcessAll(Sanitizer(parse), a).out == ProcessAll(Sanitizer(parse), b).out
  {
    if a != [] {
      SameLineSameOutput(parse, a[0], b[0]);
      forall i | 0 <= i < |a| - 1
        ensures VerdictOn(parse, a[1..][i]) == VerdictOn(parse, b[1..][i])
      {
        assert VerdictOn(parse, a[i + 1]) == VerdictOn(parse, b[i + 1]);
      }
      LogIndependentOfSecrets(parse, a[1..], b[1..]);
    }
  }

  lemma SameLineSameOutput(parse: Parser, x: Str, y: Str)
    requires VerdictOn(parse, x) == VerdictOn(parse, y)
    ensures Process(parse, x).out == Process(parse, y).out
  {
    hide Lead, ContentLen, CouldBecomeMarker, NoteStored;
  }

  // The same of streams: two jobs whose lines look alike, under any two chunkings, leave
  // the same log, whatever secrets they carry.
  method FilterLookalikes(parse: Parser, a: seq<Str>, b: seq<Str>)
    returns (outs: seq<Str>, rest: Str, found: seq<Credential>, outs': seq<Str>, rest': Str, found': seq<Credential>)
    requires SameToTheEye(parse, Lines(Concat(a)), Lines(Concat(b)))
    ensures Concat(outs) + rest == Concat(outs') + rest'
    ensures Piece(Concat(outs) + rest, found) == Whole(Sanitizer(parse), Concat(a))
    ensures Piece(Concat(outs') + rest', found') == Whole(Sanitizer(parse), Concat(b))
  {
    hide Concat, ProcessAll, SameToTheEye, Emitted;
    outs, rest, found := FilterJob(parse, a);
    outs', rest', found' := FilterJob(parse, b);
    LogIndependentOfSecrets(parse, Lines(Concat(a)), Lines(Concat(b)));
  }

  // A marker line a script prints is one note and one credential under any chunking.
  method StreamMarkerLine(other: OtherValues, ms: seq<Member>, chunks: seq<Str>)
    returns (outs: seq<Str>, rest: Str, f: seq<Credential>)
    requires IsPayload(ms) && Concat(chunks) == MarkerLine(ms)
    ensures Concat(outs) + rest == NoteStored(MergePairs(FieldsOf(ms).title))
    ensures f == [MergedFields(FieldsOf(ms))]
    ensures !HasSplitField(FieldsOf(ms)) ==> f == [FieldsOf(ms)]
  {
    hide Whole, MarkerLine, IsPayload, NoteStored, FieldsOf, HasSplitField, Emitted, Concat;
    MarkerRoundTrip(other, ms);
    outs, rest, f := FilterJob(ParseMarker(other), chunks);
  }
}
