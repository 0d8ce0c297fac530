// The streaming credential filter: job output arrives in arbitrary chunks, and what
// it passes on must not depend on where they are cut.
module SecretFilter {
  import opened Text
  import opened Wrappers
  import opened SecretLines
  import opened LineVerdicts

  // What the filter is doing with the line it has not seen the end of.
  datatype Mode =
    | Clear
    | Hold(text: Str)
    | PassingThrough
    | Dropping
    | SwallowingLf

  // The mode and the output so far for an open line, in closed form.
  function ModeOf(open: Str): Mode {
    if open == [] then Clear
    else if TooLong(open) then if EndsLine(open) then SwallowingLf else Dropping
    else if EndsLine(open) then if IsMarkerLine(open) then Hold(open) else Clear
    else if MightBeMarker(open) then Hold(open)
    else PassingThrough
  }

  function Shown(open: Str): Str {
    if TooLong(open) then NOTE_TOO_LONG else if ModeOf(open).Hold? then [] else open
  }

  lemma TakeFacts(parse: Parser, line: Str)
    ensures IsPlain(line) ==> Process(parse, line) == SecretLines.Plain(line)
    ensures TooLong(line) ==> Process(parse, line) == SecretLines.Plain(NOTE_TOO_LONG)
    ensures IsMarkerLine(line) ==> MightBeMarker(line)
    ensures ModeOf([]) == Clear && Shown([]) == []
  {
  }

  // The mode and the piece Take leaves behind for a first line, or for its remainder
  // when its beginning was passed on already.
  ghost predicate Taken(parse: Parser, open: Str, line: Str, last: bool, p: Piece, m: Mode) {
    if open != [] then
      p == SecretLines.Plain(line) && m == if EndsLine(line) then Clear else PassingThrough
    else if last && !LastIs(line, LF) then
      p == SecretLines.Plain(Shown(line)) && m == ModeOf(line)
    else
      p == Process(parse, line) && m == Clear
  }

  lemma WholeLineTaken(parse: Parser, line: Str, rest: Str, p: Piece, m: Mode)
    requires line != [] && IsFirstLine(line, rest) && Taken(parse, [], line, rest == [], p, m)
    ensures Settled(line + rest) ==> m == Clear && p == Sanitizer(parse)(line)
    ensures !Settled(line + rest) ==> rest == [] && IsOpen(line) && m == ModeOf(line) && p == SecretLines.Plain(Shown(line))
  {
    hide Run, LineEnd, BreakAt, Settled, Lead, LeadEnd, ProcessFrom, TooLongFrom, CouldBecomeMarker, StartsMarker, ContentLen;
    FirstLineEnds(line, rest);
    TakeFacts(parse, line);
  }

  lemma TakenCompletes(parse: Parser, open: Str, line: Str, rest: Str, p: Piece, m: Mode)
    requires line != [] && IsFirstLine(open + line, rest)
    requires open == [] || IsPlainFragment(open)
    requires Taken(parse, open, line, rest == [], p, m)
    ensures Settled(open + line + rest) ==>
              && m == Clear
              && Join(SecretLines.Plain(Shown(open)), p) == Sanitizer(parse)(open + line)
    ensures !Settled(open + line + rest) ==>
              && rest == [] && IsOpen(open + line)
              && m == ModeOf(open + line)
              && Join(SecretLines.Plain(Shown(open)), p) == SecretLines.Plain(Shown(open + line))
  {
    hide Run, LineEnd, BreakAt, Settled, Lead, LeadEnd, ProcessFrom, TooLongFrom, CouldBecomeMarker, StartsMarker, ContentLen;
    JoinLaws(p, Nothing, Nothing);
    if open == [] {
      assert open + line == line && open + line + rest == line + rest;
      TakeFacts(parse, []);
      WholeLineTaken(parse, line, rest, p, m);
      hide Taken, ModeOf, Shown, Process;
    } else {
      FirstLineEnds(open + line, rest);
      TakeFacts(parse, open + line);
      PlainFragmentStays(open, line);
    }
  }

  lemma DroppedLineEnds(parse: Parser, open: Str, chunk: Str)
    requires IsOpen(open) && ModeOf(open).SwallowingLf? && chunk != []
    ensures var line, rest := if chunk[0] == LF then open + [LF] else open, if chunk[0] == LF then chunk[1..] else chunk;
            && IsFirstLine(line, rest) && line + rest == open + chunk && Settled(line + rest)
            && Sanitizer(parse)(line) == Join(SecretLines.Plain(Shown(open)), Nothing)
  {
    AfterCr(open, chunk);
    TheLfOfACrlf(open);
    TooLongIsANote(parse, open);
    if chunk[0] == LF { TooLongIsANote(parse, open + [LF]); }
  }

  lemma DroppedGoesOn(open: Str, x: Str)
    requires IsOpen(open) && ModeOf(open).Dropping? && BreakAt(x, 0) == |x|
    ensures IsOpen(open + x) && ModeOf(open + x).Dropping?
  {
    FragmentGrows(open, x);
    TooLongStays(open, x);
  }

  lemma DroppedFragmentEnds(open: Str, x: Str)
    requires IsOpen(open) && ModeOf(open).Dropping? && BreakAt(x, 0) < |x|
    ensures var b, e := BreakAt(x, 0), LineEnd(x);
            var line, rest := open + x[..e], x[e..];
            && IsFirstLine(line, rest) && line + rest == open + x
            && (if x[b] == CR && e == |x| && e == b + 1
                then line == open + x && IsOpen(line) && EndsLine(line)
                else Settled(line + rest))
  {
    hide BreakAt, LineEnd, Settled, Run, TooLong, Process, IsFirstLine, IsMarkerLine, MightBeMarker;
    var e := LineEnd(x);
    AfterFragment(open, x);
    FirstLineEnds(open + x[..e], x[e..]);
    LastOfLine(x);
    LastOfConcat(open, x, e);
  }

  lemma DroppedStaysDropped(parse: Parser, open: Str, y: Str)
    requires ModeOf(open).Dropping?
    ensures TooLong(open + y)
    ensures Sanitizer(parse)(open + y) == Join(SecretLines.Plain(Shown(open)), Nothing)
    ensures ModeOf(open + y) == if EndsLine(open + y) then SwallowingLf else Dropping
  {
    TooLongStays(open, y);
    TooLongIsANote(parse, open + y);
  }

  lemma LastOfLine(x: Str)
    requires BreakAt(x, 0) < |x|
    ensures var b, e := BreakAt(x, 0), LineEnd(x);
            IsBreak(x[e - 1]) && (x[e - 1] == CR <==> x[b] == CR && e == b + 1)
  {
  }

  lemma LastOfConcat(s: Str, x: Str, e: nat)
    requires 0 < e <= |x|
    ensures forall c :: LastIs(s + x[..e], c) <==> x[e - 1] == c
    ensures e == |x| ==> s + x[..e] == s + x && x[e..] == []
  {
    assert (s + x[..e])[|s| + e - 1] == x[e - 1];
  }

  // Where a held line ends in the next chunk.
  function HeldCut(held: Str, chunk: Str): (r: nat)
    ensures r <= |chunk|
  {
    if LastIs(held, CR) then if chunk != [] && chunk[0] == LF then 1 else 0
    else if chunk == [] then 0 else LineEnd(chunk)
  }

  lemma HeldLine(held: Str, chunk: Str)
    requires held != [] && IsOpen(held)
    ensures var cut := HeldCut(held, chunk);
            IsFirstLine(held + chunk[..cut], chunk[cut..]) && (held + chunk[..cut]) + chunk[cut..] == held + chunk
  {
    hide Run, Settled, TooLong, Process, IsMarkerLine, MightBeMarker;
    var cut := HeldCut(held, chunk);
    if EndsLine(held) {
      AfterCr(held, chunk);
      assert held + chunk[..0] == held && chunk[0..] == chunk;
      if cut == 1 { assert chunk[..1] == [LF]; }
    } else if chunk != [] {
      AfterFragment(held, chunk);
    } else {
      NoBreakInside(held);
      assert held + chunk[..0] == held && chunk[0..] == [] && held + [] == held;
    }
  }

  // A plain line whose CR ended the last chunk is over once more text comes, and an LF
  // right behind it is passed on as a line of its own.
  lemma PlainLineIsOver(parse: Parser, settled: Piece, open: Str, rest: Str)
    requires open != [] && IsOpen(open) && ModeOf(open).Clear? && rest != []
    ensures AheadOf(Sanitizer(parse), settled, open + rest) ==
            AheadOf(Sanitizer(parse), Join(settled, SecretLines.Plain(open)), rest)
    ensures Shown(open) == open
  {
    var rule := Sanitizer(parse);
    AfterCr(open, rest);
    PlainIsUnchanged(parse, open);
    if rest[0] == LF {
      TheLfOfACrlf(open);
      PlainIsUnchanged(parse, open + [LF]);
      LoneLfIsPlain(parse);
      LfIsALine(rest);
      AheadPastLine(rule, settled, open + [LF], rest[1..]);
      AheadPastLine(rule, Join(settled, SecretLines.Plain(open)), [LF], rest[1..]);
      PlainPieces(settled, open, [LF]);
    } else {
      AheadPastLine(rule, settled, open, rest);
    }
  }

  lemma ModeTells(open: Str)
    ensures ModeOf(open).Hold? ==> ModeOf(open).text == open && open != [] && Shown(open) == []
    ensures ModeOf(open).PassingThrough? ==> IsPlainFragment(open)
    ensures ModeOf(open).Dropping? || ModeOf(open).SwallowingLf? ==> Shown(open) == NOTE_TOO_LONG
  {
    hide Run, LineEnd, Lead, LeadEnd, ProcessFrom, TooLongFrom, CouldBecomeMarker, StartsMarker, ContentLen;
  }

  lemma LfIsALine(t: Str)
    requires t != [] && t[0] == LF
    ensures [LF] + t[1..] == t && IsFirstLine([LF], t[1..]) && Settled(t)
  {
    BreakIsFirst(t, 0);
  }

  lemma PlainPieces(p: Piece, a: Str, b: Str)
    ensures Join(Join(p, SecretLines.Plain(a)), SecretLines.Plain(b)) == Join(p, SecretLines.Plain(a + b))
  {
    assert p.out + a + b == p.out + (a + b);
  }

  // The next line of what is left of a chunk.
  lemma NextLine(open: Str, rest: Str)
    requires rest != []
    requires open == [] || (IsOpen(open) && !EndsLine(open))
    ensures var e := LineEnd(rest);
            IsFirstLine(open + rest[..e], rest[e..]) && (open + rest[..e]) + rest[e..] == open + rest
  {
    var e := LineEnd(rest);
    if open == [] {
      assert open + rest[..e] == rest[..e] && rest[..e] + rest[e..] == rest;
    } else {
      AfterFragment(open, rest);
    }
  }

  lemma NextOfLines(rest: Str)
    requires rest != []
    ensures var e := LineEnd(rest);
            Lines(rest)[0] == rest[..e] && Lines(rest)[1..] == Lines(rest[e..])
  {
  }

  lemma OnlyTheLastLineIsOpen(rest: Str)
    requires rest != [] && rest[LineEnd(rest)..] != []
    ensures EndsLine(rest[..LineEnd(rest)])
  {
    hide LineEnd;
    var e := LineEnd(rest);
    assert BreakAt(rest, 0) < |rest| by { InsideIsBroken(rest); }
    LastOfLine(rest);
    assert rest[..e][e - 1] == rest[e - 1];
  }

  lemma InsideIsBroken(rest: Str)
    requires rest != [] && LineEnd(rest) < |rest|
    ensures BreakAt(rest, 0) < |rest|
  {
  }

  ghost function AheadOf(rule: LineRule, settled: Piece, t: Str): Progress {
    Progress(Join(settled, Run(rule, t).done), Run(rule, t).open)
  }

  lemma AheadPastLine(rule: LineRule, settled: Piece, line: Str, rest: Str)
    requires IsFirstLine(line, rest) && Settled(line + rest)
    ensures AheadOf(rule, settled, line + rest) == AheadOf(rule, Join(settled, rule(line)), rest)
  {
    RunFirstLine(rule, line, rest);
    JoinLaws(settled, rule(line), Run(rule, rest).done);
  }

  class LineFilter {
    const parse: Parser
    // The held fragment, and where its lead ends.
    var pending: Str
    var lead: nat
    var passthrough: bool
    var dropping: bool
    var dropLf: bool

    // All text fed so far; the open line at its end; what the lines before it came to;
    // and everything emitted, the shown part of the open line included.
    ghost var seen: Str
    ghost var open: Str
    ghost var settled: Piece
    ghost var emitted: Piece

    ghost function Rule(): LineRule { Sanitizer(parse) }

    // At most one of the four things a filter can be in the middle of.
    ghost predicate Matches(m: Mode)
      reads this
    {
      && pending == (if m.Hold? then m.text else [])
      && (m.Hold? ==> lead == Lead(pending))
      && passthrough == m.PassingThrough?
      && dropping == m.Dropping?
      && dropLf == m.SwallowingLf?
    }

    // The invariant between two steps inside a chunk.
    ghost predicate Mid()
      reads this
    {
      && Matches(ModeOf(open))
      && IsOpen(open)
      && emitted == Join(settled, SecretLines.Plain(Shown(open)))
    }

    // Where the text ends up once `rest` has been read as well.
    ghost function Ahead(rest: Str): Progress
      reads this
    {
      AheadOf(Rule(), settled, open + rest)
    }

    // The invariant between two chunks.
    ghost predicate Valid()
      reads this
    {
      Mid() && Run(Rule(), seen) == Progress(settled, open)
    }

    constructor (parse: Parser)
      ensures Valid() && seen == [] && emitted == Nothing && this.parse == parse
    {
      this.parse := parse;
      pending, lead := [], 0;
      passthrough, dropping, dropLf := false, false, false;
      seen, open, settled, emitted := [], [], Nothing, Nothing;
    }

    // Accounts for `full`, the line at the front of the text still to be read, once it
    // is known how it ends ...
    ghost method RecordSettled(full: Str, rest: Str, p: Piece)
      requires IsFirstLine(full, rest) && Settled(full + rest)
      requires Matches(Clear)
      requires emitted == Join(settled, SecretLines.Plain(Shown(open)))
      requires Join(SecretLines.Plain(Shown(open)), p) == Rule()(full)
      modifies this`open, this`settled, this`emitted
      ensures Mid() && open == [] && seen == old(seen)
      ensures emitted == Join(old(emitted), p)
      ensures Ahead(rest) == AheadOf(Rule(), old(settled), full + rest)
    {
      hide Run, LineEnd, Settled, Process, ProcessFrom, Lead, LeadEnd;
      JoinLaws(settled, SecretLines.Plain(Shown(open)), p);
      AheadPastLine(Rule(), settled, full, rest);
      emitted := Join(emitted, p);
      settled, open := Join(settled, Rule()(full)), [];
      JoinLaws(settled, Nothing, Nothing);
      assert [] + rest == rest;
    }

    // ... and while it is still open.
    ghost method RecordOpen(full: Str, p: Piece)
      requires IsOpen(full)
      requires Matches(ModeOf(full))
      requires emitted == Join(settled, SecretLines.Plain(Shown(open)))
      requires Join(SecretLines.Plain(Shown(open)), p) == SecretLines.Plain(Shown(full))
      modifies this`open, this`emitted
      ensures Mid() && seen == old(seen)
      ensures emitted == Join(old(emitted), p)
      ensures Ahead([]) == AheadOf(Rule(), old(settled), full)
    {
      hide Run, LineEnd, BreakAt, Settled, Lead, LeadEnd, Process, ProcessFrom, TooLong, IsMarkerLine, MightBeMarker;
      JoinLaws(settled, SecretLines.Plain(Shown(open)), p);
      emitted := Join(emitted, p);
      open := full;
      assert full + [] == full;
    }

    ghost method Record(line: Str, rest: Str, p: Piece, m: Mode)
      requires line != [] && IsFirstLine(open + line, rest)
      requires open == [] || IsPlainFragment(open)
      requires Taken(parse, open, line, rest == [], p, m) && Matches(m)
      requires emitted == Join(settled, SecretLines.Plain(Shown(open)))
      modifies this`open, this`settled, this`emitted
      ensures Mid() && seen == old(seen)
      ensures emitted == Join(old(emitted), p)
      ensures Ahead(rest) == AheadOf(Rule(), old(settled), old(open) + line + rest)
      ensures rest != [] ==> open == []
    {
      hide Run, LineEnd, BreakAt, Settled, Process, TooLong, IsMarkerLine, MightBeMarker, Taken, IsPlainFragment;
      var full := open + line;
      TakenCompletes(parse, open, line, rest, p, m);
      if Settled(full + rest) {
        RecordSettled(full, rest, p);
      } else {
        assert full + rest == full;
        RecordOpen(full, p);
      }
    }

    // One line, or the line fragment that ends the data seen so far.
    // `begun` is what was passed on of this line before.
    method Take(line: Str, leadFrom: nat, last: bool, ghost begun: Str)
      returns (o: Str, f: seq<Credential>, ghost m: Mode)
      requires Matches(if begun == [] then Clear else PassingThrough)
      requires line != [] && (!last ==> EndsLine(line))
      requires leadFrom <= |line| && forall i :: 0 <= i < leadFrom ==> IsLead(line[i])
      modifies this`pending, this`lead, this`passthrough, this`dropping, this`dropLf
      ensures Matches(m) && Taken(parse, begun, line, last, Piece(o, f), m)
    {
      hide LeadEnd, ProcessFrom, TooLongFrom, CouldBecomeMarker, StartsMarker, ContentLen;
      if passthrough {
        o, f := line, [];
        if EndsLine(line) {
          passthrough := false;
        }
        m := if EndsLine(line) then Clear else PassingThrough;
        return;
      }
      LeadResumes(line, leadFrom);
      TakeFacts(parse, line);
      var l := LeadEnd(line, leadFrom);
      var complete := EndsLine(line);
      var crInFlight := last && LastIs(line, CR) && (StartsMarker(line, l) || TooLongFrom(line, l));
      if complete && !crInFlight {
        var p := ProcessFrom(parse, line, l);
        o, f := p.out, p.found;
      } else if TooLongFrom(line, l) {
        o, f := NOTE_TOO_LONG, [];
        if complete {
          dropLf := true;
        } else {
          dropping := true;
        }
      } else if CouldBecomeMarker(line, l) {
        o, f := [], [];
        pending, lead := line, l;
      } else {
        o, f := line, [];
        passthrough := true;
      }
      m := if last && !LastIs(line, LF) then ModeOf(line) else Clear;
    }

    // Strips what still belongs to a dropped over-long line off the chunk.
    method SkipDropped(chunk: Str) returns (rest: Str)
      requires Mid()
      modifies this`dropping, this`dropLf, this`open, this`settled, this`emitted
      ensures Mid() && seen == old(seen) && emitted == old(emitted)
      ensures Ahead(rest) == old(Ahead(chunk))
      ensures rest != [] ==> !dropping && !dropLf
    {
      hide Run, Settled, BreakAt, Lead, LeadEnd, Process, ProcessFrom, TooLong, IsMarkerLine, MightBeMarker, IsFirstLine;
      rest := chunk;
      if dropLf && rest != [] {
        rest := SkipLf(rest);
      }
      if dropping {
        rest := SkipToBreak(rest);
      }
    }

    method SkipLf(chunk: Str) returns (rest: Str)
      requires Mid() && dropLf && chunk != []
      modifies this`dropLf, this`open, this`settled, this`emitted
      ensures Mid() && seen == old(seen) && emitted == old(emitted)
      ensures Ahead(rest) == old(Ahead(chunk))
      ensures !dropping && !dropLf
    {
      hide Run, Settled, BreakAt, Lead, LeadEnd, Process, ProcessFrom, TooLong, IsMarkerLine, MightBeMarker, IsFirstLine;
      JoinLaws(emitted, Nothing, Nothing);
      dropLf := false;
      rest := chunk;
      if chunk[0] == LF {
        rest := chunk[1..];
      }
      DroppedLineEnds(parse, open, chunk);
      RecordSettled(if chunk[0] == LF then open + [LF] else open, rest, Nothing);
    }

    method SkipToBreak(chunk: Str) returns (rest: Str)
      requires Mid() && dropping
      modifies this`dropping, this`dropLf, this`open, this`settled, this`emitted
      ensures Mid() && seen == old(seen) && emitted == old(emitted)
      ensures Ahead(rest) == old(Ahead(chunk))
      ensures rest != [] ==> !dropping && !dropLf
    {
      hide Run, LineEnd, BreakAt, Settled, Lead, LeadEnd, Process, ProcessFrom, TooLong, IsMarkerLine, MightBeMarker, IsFirstLine, ModeOf, Shown, IsOpen;
      JoinLaws(emitted, Nothing, Nothing);
      ModeTells(open);
      var b := BreakAt(chunk, 0);
      if b == |chunk| {
        DroppedGoesOn(open, chunk);
        ModeTells(open + chunk);
        RecordOpen(open + chunk, Nothing);
        rest := [];
      } else {
        dropping := false;
        var e := LineEnd(chunk);
        DroppedFragmentEnds(open, chunk);
        DroppedStaysDropped(parse, open, chunk[..e]);
        rest := chunk[e..];
        if chunk[b] == CR && e == |chunk| && e == b + 1 {
          dropLf := true;
          ModeTells(open + chunk);
          RecordOpen(open + chunk, Nothing);
        } else {
          RecordSettled(open + chunk[..e], rest, Nothing);
        }
      }
    }

    // Extends the held line with the start of the chunk.
    method ContinueHeld(chunk: Str) returns (rest: Str, o: Str, f: seq<Credential>)
      requires Mid() && pending != []
      modifies this
      ensures Mid() && seen == old(seen)
      ensures emitted == Join(old(emitted), Piece(o, f))
      ensures Ahead(rest) == old(Ahead(chunk))
      ensures rest != [] ==> open == []
    {
      hide Run, Settled, BreakAt, LineEnd, LeadEnd, Process, ProcessFrom, TooLong, IsMarkerLine, MightBeMarker, IsFirstLine, Taken, HeldCut;
      var held := pending;
      pending := [];
      ghost var m;
      var cut := HeldCut(held, chunk);
      rest := chunk[cut..];
      var line := held + chunk[..cut];
      HeldLine(held, chunk);
      FirstLineEnds(line, rest);
      TakeFacts(parse, []);
      open := [];
      assert [] + line == line;
      o, f, m := Take(line, lead, rest == [], []);
      Record(line, rest, Piece(o, f), m);
    }

    ghost method StartLine(rest: Str)
      requires Mid() && pending == [] && !dropping && !dropLf && rest != []
      modifies this`open, this`settled
      ensures Mid() && emitted == old(emitted) && seen == old(seen)
      ensures Ahead(rest) == old(Ahead(rest))
      ensures open == [] || IsPlainFragment(open)
    {
      hide Run, Settled, BreakAt, LineEnd, LeadEnd, Process, ProcessFrom, IsMarkerLine, IsFirstLine, ModeOf, IsPlainFragment, Shown;
      ModeTells(open);
      if open != [] && !passthrough {
        PlainLineIsOver(parse, settled, open, rest);
        settled := Join(settled, SecretLines.Plain(open));
        open := [];
        JoinLaws(settled, Nothing, Nothing);
        TakeFacts(parse, []);
        assert [] + rest == rest;
      }
    }

    // The lines of what is left of the chunk.
    method TakeLines(rest: Str) returns (o: Str, f: seq<Credential>)
      requires Mid() && pending == [] && !dropping && !dropLf
      requires open == [] || IsPlainFragment(open)
      modifies this
      ensures Mid() && seen == old(seen)
      ensures emitted == Join(old(emitted), Piece(o, f))
      ensures Ahead([]) == old(Ahead(rest))
    {
      hide Run, Settled, BreakAt, LineEnd, LeadEnd, Process, ProcessFrom, TooLong, IsMarkerLine, MightBeMarker, IsFirstLine, Lines;
      o, f := [], [];
      JoinLaws(emitted, Nothing, Nothing);
      var lines := Lines(rest);
      ghost var left := rest;
      for i := 0 to |lines|
        invariant Mid() && seen == old(seen)
        invariant lines[i..] == Lines(left)
        invariant left != [] ==> Matches(ModeOf(open)) && (open == [] || IsPlainFragment(open))
        invariant emitted == Join(old(emitted), Piece(o, f))
        invariant Ahead(left) == old(Ahead(rest))
      {
        NextOfLines(left);
        if left[LineEnd(left)..] != [] { OnlyTheLastLineIsOpen(left); }
        NextLine(open, left);
        var o', f';
        ghost var m;
        o', f', m := Take(lines[i], 0, i == |lines| - 1, open);
        left := left[LineEnd(left)..];
        Record(lines[i], left, Piece(o', f'), m);
        JoinLaws(old(emitted), Piece(o, f), Piece(o', f'));
        o, f := o + o', f + f';
      }
    }

    method Consume(chunk: Str) returns (o: Str, f: seq<Credential>)
      requires Mid()
      modifies this
      ensures Mid() && seen == old(seen)
      ensures emitted == Join(old(emitted), Piece(o, f))
      ensures Ahead([]) == old(Ahead(chunk))
    {
      hide Run, Settled, BreakAt, LineEnd, LeadEnd, Process, ProcessFrom, TooLong, IsMarkerLine, MightBeMarker, IsFirstLine;
      o, f := [], [];
      JoinLaws(emitted, Nothing, Nothing);
      var rest := SkipDropped(chunk);
      if pending != [] {
        rest, o, f := ContinueHeld(rest);
      }
      if rest != [] {
        StartLine(rest);
        var o', f' := TakeLines(rest);
        JoinLaws(old(emitted), Piece(o, f), Piece(o', f'));
        o, f := o + o', f + f';
      }
    }

    // One output chunk: what may be stored and streamed, and the credentials in it.
    method Extract(chunk: Str) returns (o: Str, f: seq<Credential>)
      requires Valid()
      modifies this
      ensures Valid() && seen == old(seen) + chunk
      ensures emitted == Join(old(emitted), Piece(o, f))
    {
      hide Run, Settled, BreakAt, LineEnd, LeadEnd, Process, ProcessFrom, TooLong, IsMarkerLine, MightBeMarker, IsFirstLine, ModeOf, Shown, IsOpen;
      RunAppend(Rule(), seen, chunk);
      o, f := Consume(chunk);
      RunOpen(Rule(), open);
      JoinLaws(settled, Nothing, Nothing);
      assert open + [] == open;
      seen := seen + chunk;
    }

    // The job is over: a fragment still held is its last, unterminated line.
    method Flush() returns (o: Str, f: seq<Credential>)
      requires Valid()
      ensures Join(emitted, Piece(o, f)) == Whole(Rule(), seen)
    {
      hide Run, Settled, LeadEnd, ProcessFrom, TooLongFrom, CouldBecomeMarker, StartsMarker;
      WholeIsRunThenOpen(Rule(), seen);
      LastLine(parse, settled, open);
      if pending == [] {
        return [], [];
      }
      var p := ProcessFrom(parse, pending, lead);
      return p.out, p.found;
    }
  }

  // What is left to say about the open line when the job ends.
  lemma LastLine(parse: Parser, settled: Piece, open: Str)
    ensures var p := if ModeOf(open).Hold? then Process(parse, open) else Nothing;
            Join(Join(settled, SecretLines.Plain(Shown(open))), p) ==
            if open == [] then settled else Join(settled, Process(parse, open))
  {
    hide LeadEnd, ProcessFrom, TooLongFrom, CouldBecomeMarker, StartsMarker;
    TakeFacts(parse, open);
    JoinLaws(settled, Nothing, Nothing);
    JoinLaws(settled, SecretLines.Plain(Shown(open)), Nothing);
    JoinLaws(SecretLines.Plain(Shown(open)), Nothing, Nothing);
  }

  // What has been passed on once `t` has arrived, the shown part of its open line included.
  function Emitted(rule: LineRule, t: Str): Piece {
    Join(Run(rule, t).done, SecretLines.Plain(Shown(Run(rule, t).open)))
  }

  // A whole job: however its output was cut into chunks, what was passed on and the
  // credentials found are those of the text read line by line; and what had been passed
  // on after each chunk depends on the text up to there, not on the cuts in it.
  method FilterJob(parse: Parser, chunks: seq<Str>) returns (outs: seq<Str>, rest: Str, f: seq<Credential>)
    ensures Piece(Concat(outs) + rest, f) == Whole(Sanitizer(parse), Concat(chunks))
    ensures |outs| == |chunks|
    ensures forall k :: 0 <= k <= |chunks| ==>
              Concat(outs[..k]) == Emitted(Sanitizer(parse), Concat(chunks[..k])).out
  {
    hide Whole, Run, ModeOf, Shown, Process, Concat;
    var filter := new LineFilter(parse);
    outs, f := [], [];
    NothingEmitted(Sanitizer(parse));
    for i := 0 to |chunks|
      invariant fresh(filter) && filter.Valid() && filter.parse == parse
      invariant |outs| == i
      invariant filter.seen == Concat(chunks[..i])
      invariant filter.emitted == Piece(Concat(outs), f)
      invariant forall k :: 0 <= k <= i ==>
                  Concat(outs[..k]) == Emitted(Sanitizer(parse), Concat(chunks[..k])).out
    {
      ghost var before := outs;
      var o', f' := filter.Extract(chunks[i]);
      ConcatSnoc(chunks[..i], chunks[i]);
      assert chunks[..i + 1] == chunks[..i] + [chunks[i]];
      ConcatSnoc(outs, o');
      outs, f := outs + [o'], f + f';
      assert outs[..i + 1] == outs;
      assert forall k :: 0 <= k <= i ==> outs[..k] == before[..k];
    }
    assert chunks[..|chunks|] == chunks;
    var f';
    rest, f' := filter.Flush();
    f := f + f';
  }

  lemma NothingEmitted(rule: LineRule)
    ensures Emitted(rule, []) == Nothing && Concat([]) == []
  {
  }
}
