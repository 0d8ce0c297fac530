// Which lines are marker lines, said by their characters: what may stand in front of the
// marker, what may still become one, and what is left alone.
module LeadLines {
  import opened Text
  import opened Wrappers
  import opened SecretLines
  import opened LineVerdicts
  import opened SecretFilter
  import opened FilterProperties
  import opened Json
  import opened Marker
  import opened MarkerLimits

  // What a reader of the output does not see: controls and blanks, the soft hyphen, the
  // Arabic letter mark, the Ogham and Mongolian separators, the spaces, joiners and direction
  // marks of the 2000 block, line and paragraph separator, embeddings, word joiner and
  // friends, the ideographic space and the byte order mark.
  predicate IsInvisible(c: Code) {
    || 0x0 <= c <= 0x20 || 0x7F <= c <= 0xA0 || c == 0xAD || c == 0x61C || c == 0x1680 || c == 0x180E
    || 0x2000 <= c <= 0x200F || 0x2028 <= c <= 0x202F || 0x205F <= c <= 0x206F || c == 0x3000 || c == 0xFEFF
  }

  ghost predicate AllInvisible(s: Str) { forall i :: 0 <= i < |s| ==> IsInvisible(s[i]) }

  // The twelve characters of the marker.
  function TheMarker(): Str { [35, 35, 82, 77, 77, 45, 67, 82, 69, 68, 35, 35] }

  lemma MarkerIs()
    ensures MARKER == TheMarker()
  {
    var s := "##RMM-CRED##";
    assert s[0] == '#' && s[1] == '#' && s[2] == 'R' && s[3] == 'M' && s[4] == 'M' && s[5] == '-';
    assert s[6] == 'C' && s[7] == 'R' && s[8] == 'E' && s[9] == 'D' && s[10] == '#' && s[11] == '#';
  }

  lemma LeadIs(c: Code)
    ensures IsLead(c) <==> IsInvisible(c)
  {
  }

  // The part of a line that is not seen, when something is seen behind it.
  lemma LeadOf(lead: Str, rest: Str)
    requires AllInvisible(lead) && (rest != [] ==> !IsInvisible(rest[0]))
    ensures Lead(lead + rest) == |lead|
  {
    var t := lead + rest;
    var l := Lead(t);
    assert l < |t| ==> !IsInvisible(t[l]);
    assert forall i :: 0 <= i < |lead| ==> t[i] == lead[i];
    assert rest != [] ==> t[|lead|] == rest[0];
  }

  // ---- what a marker line is -------------------------------------------------------------

  // The marker with nothing to be seen in front of it.
  ghost predicate Shows(t: Str, n: int) {
    0 <= n && n + 12 <= |t| && AllInvisible(t[..n]) && t[n..n + 12] == TheMarker()
  }

  lemma MarkerLineIff(t: Str)
    ensures IsMarkerLine(t) <==> exists n :: Shows(t, n)
  {
    MarkerIs();
    var l := Lead(t);
    if IsMarkerLine(t) {
      assert Shows(t, l);
    }
    if n :| Shows(t, n) {
      assert t == t[..n] + t[n..] && t[n] == t[n..n + 12][0] == 35;
      LeadOf(t[..n], t[n..]);
    }
  }

  // A text is waited for exactly as long as something can follow that makes it a marker line.
  lemma MightBeMarkerIff(t: Str)
    ensures MightBeMarker(t) <==> exists x :: IsMarkerLine(t + x)
  {
    if MightBeMarker(t) {
      Completed(t);
    }
    if x :| IsMarkerLine(t + x) {
      MarkerLinesMight(t + x);
      MightBeMarkerShrinks(t, x);
    }
  }

  lemma Completed(t: Str)
    requires MightBeMarker(t)
    ensures exists x :: IsMarkerLine(t + x)
  {
    MarkerFacts();
    var l := Lead(t);
    if StartsMarker(t, l) {
      assert t + [] == t && IsMarkerLine(t + []);
    } else {
      var rest := t[l..];
      assert rest == Take(rest, |MARKER| + 1);
      var x := MARKER[|rest|..];
      var u := t + x;
      assert u == t[..l] + MARKER;
      LeadExtends(t, x);
      if l == |t| { LeadOfMarker(t); }
      assert u[l..l + |MARKER|] == MARKER;
      assert IsMarkerLine(t + x);
    }
  }

  lemma LeadOfMarker(t: Str)
    requires Lead(t) == |t|
    ensures Lead(t + MARKER) == |t|
  {
    MarkerFacts();
    LeadExtends(t, MARKER);
    assert (t + MARKER)[|t|] == MARKER[0];
  }

  // All the filter ever holds back, in any state it can come to: at most 65,537 characters,
  // which something could still make a marker line, or which are one up to half of its CRLF.
  lemma HeldCouldBecomeOne(rule: LineRule, t: Str)
    requires ModeOf(Run(rule, t).open).Hold?
    ensures var held := ModeOf(Run(rule, t).open).text;
            && held == Run(rule, t).open && |held| <= 65_537 && (|held| == 65_537 ==> held[65_536] == 0x0D)
            && (exists x :: IsMarkerLine(held + x)) && (EndsLine(held) ==> IsMarkerLine(held))
  {
    HeldFragmentIsBounded(rule, t);
    MightBeMarkerIff(ModeOf(Run(rule, t).open).text);
    hide Run, IsMarkerLine, MightBeMarker;
  }

  // ---- what is left alone ----------------------------------------------------------------

  // Nothing that follows makes it a marker line.
  ghost predicate NeverMarker(t: Str) { forall x :: !IsMarkerLine(t + x) }

  lemma NeverMarkerIff(t: Str)
    ensures NeverMarker(t) <==> !MightBeMarker(t)
  {
    MightBeMarkerIff(t);
  }

  // A line that is no marker line, and is at most 65,536 characters long or shows so within
  // its first 65,537.
  ghost predicate IsOrdinaryLine(line: Str) {
    !IsMarkerLine(line) && (ContentLen(line) > 65_536 ==> NeverMarker(line[..65_537]))
  }

  // Exactly such a line goes out as it is.
  lemma OrdinaryLineIff(parse: Parser, line: Str)
    ensures Process(parse, line) == SecretLines.Plain(line) <==> IsOrdinaryLine(line)
  {
    TooLongByHead(line);
    if ContentLen(line) > MAX_LINE { NeverMarkerIff(line[..MAX_LINE + 1]); }
    assert IsOrdinaryLine(line) <==> IsPlain(line);
    if TooLong(line) {
      NotItself(line, NOTE_TOO_LONG);
    } else if IsMarkerLine(line) {
      NotItself(line, NOTE_INVALID);
    }
    hide Lead, CouldBecomeMarker, TooLong, IsMarkerLine, NoteStored, NeverMarker;
  }

  // A note begins with a character that no marker line begins with.
  lemma NotItself(line: Str, note: Str)
    requires TooLong(line) || IsMarkerLine(line)
    requires note == NOTE_TOO_LONG || note == NOTE_INVALID
    ensures line != note
  {
    assert NOTE_TOO_LONG[0] == '[' as int && NOTE_INVALID[0] == '[' as int && |note| < 100;
    FirstOfHead(note);
    TooLongByHead(line);
    assert IsMarkerLine(line) ==> MightBeMarker(line);
    hide Lead, CouldBecomeMarker, MightBeMarker, TooLongFrom, NOTE_TOO_LONG, NOTE_INVALID;
  }

  // Such a line that is no marker line and does not go out: 65,537 blanks and a letter.
  lemma LongBlanksAreReplaced(parse: Parser)
    ensures var line: Str := seq(65_537, _ => 32) + [97];
            !IsMarkerLine(line) && !IsOrdinaryLine(line) && Process(parse, line) == SecretLines.Plain(NOTE_TOO_LONG)
  {
    var blanks: Str := seq(65_537, _ => 32);
    var line := blanks + [97];
    LeadOf(blanks, [97]);
    LeadOf(blanks, []);
    assert blanks + [] == blanks && line[..65_537] == blanks;
    assert MightBeMarker(blanks);
    NeverMarkerIff(blanks);
    TooLongByHead(line);
    hide Lead;
  }

  // Said by the first character: a line that begins with something to be seen other than "#"
  // is ordinary, whatever its length and whatever follows.
  lemma FirstCharacterDecides(parse: Parser, line: Str)
    requires line != [] && !IsInvisible(line[0]) && line[0] != 0x23
    ensures Process(parse, line) == SecretLines.Plain(line) && Shown(line) == line
  {
    FirstOfHead(line);
    assert IsMarkerLine(line) ==> MightBeMarker(line);
    TooLongByHead(line);
    if ContentLen(line) > MAX_LINE {
      assert line[..MAX_LINE + 1][0] == line[0];
      FirstOfHead(line[..MAX_LINE + 1]);
    }
    hide Lead, CouldBecomeMarker;
  }

  lemma FirstOfHead(head: Str)
    requires head != [] && !IsInvisible(head[0]) && head[0] != 0x23
    ensures !MightBeMarker(head)
  {
    LeadIs(head[0]);
    MarkerIs();
    assert Lead(head) == 0;
    assert Take(head[0..], |MARKER| + 1)[0] == head[0];
    if |head| >= 12 { assert head[0..12][0] == head[0]; }
  }

  // Output in which no line is a marker line, and no continuation of its unfinished last line
  // is one, goes out unchanged and all of it at once: nothing of it is held or replaced.
  lemma OrdinaryTextPasses(parse: Parser, t: Str)
    requires forall l :: l in Lines(t) ==> IsOrdinaryLine(l) && (EndsLine(l) || NeverMarker(l))
    ensures Emitted(Sanitizer(parse), t) == SecretLines.Plain(t)
  {
    hide IsMarkerLine, MightBeMarker, TooLong, NeverMarker, Lines, Lead;
    forall l | l in Lines(t)
      ensures IsOrdinary(l)
    {
      TooLongByHead(l);
      NeverMarkerIff(l);
      if ContentLen(l) > MAX_LINE { NeverMarkerIff(l[..MAX_LINE + 1]); }
    }
    OrdinaryOutputPasses(parse, t);
  }

  // The same of the filter, under every chunking: each chunk goes out as it comes in.
  method FilterOrdinary(parse: Parser, chunks: seq<Str>) returns (outs: seq<Str>, rest: Str, f: seq<Credential>)
    requires forall k :: 0 <= k <= |chunks| ==>
               forall l :: l in Lines(Concat(chunks[..k])) ==> IsOrdinaryLine(l) && (EndsLine(l) || NeverMarker(l))
    ensures |outs| == |chunks| && forall k :: 0 <= k <= |chunks| ==> Concat(outs[..k]) == Concat(chunks[..k])
    ensures Concat(outs) + rest == Concat(chunks) && f == []
  {
    hide Lines, IsOrdinaryLine, NeverMarker, Emitted, Whole, Concat;
    outs, rest, f := FilterJob(parse, chunks);
    forall k | 0 <= k <= |chunks|
      ensures Concat(outs[..k]) == Concat(chunks[..k])
    {
      OrdinaryTextPasses(parse, Concat(chunks[..k]));
    }
    assert chunks[..|chunks|] == chunks && outs[..|outs|] == outs;
    OrdinaryWhole(parse, Concat(chunks));
  }

  lemma {:induction false} OrdinaryLines(parse: Parser, lines: seq<Str>)
    requires forall l :: l in lines ==> IsOrdinaryLine(l)
    ensures ProcessAll(Sanitizer(parse), lines) == SecretLines.Plain(Concat(lines))
  {
    hide IsOrdinaryLine, Process;
    if lines != [] {
      OrdinaryLineIff(parse, lines[0]);
      OrdinaryLines(parse, lines[1..]);
    }
  }

  lemma {:induction false} LinesJoin(t: Str)
    ensures Concat(Lines(t)) == t
  {
    if t != [] {
      hide LineEnd, Lines;
      var e := LineEnd(t);
      FirstOfLines(t, e);
      LinesJoin(t[e..]);
      assert ([t[..e]] + Lines(t[e..]))[1..] == Lines(t[e..]);
      assert t[..e] + t[e..] == t;
    } else {
      assert Lines(t) == [];
    }
  }

  lemma OrdinaryWhole(parse: Parser, t: Str)
    requires forall l :: l in Lines(t) ==> IsOrdinaryLine(l)
    ensures Whole(Sanitizer(parse), t) == SecretLines.Plain(t)
  {
    OrdinaryLines(parse, Lines(t));
    LinesJoin(t);
    hide Lines, ProcessAll, IsOrdinaryLine;
  }

  // ---- a marker line behind something unseen ---------------------------------------------

  // What may stand in front of the marker on its line.
  ghost predicate IsUnseenLead(lead: Str) { AllInvisible(lead) && forall i :: 0 <= i < |lead| ==> lead[i] != 0x0A && lead[i] != 0x0D }

  lemma LeadedLine(lead: Str, ms: seq<Member>)
    requires IsUnseenLead(lead)
    ensures var line := lead + MarkerLine(ms);
            && Lines(line) == [line] && Lead(line) == |lead| && IsMarkerLine(line)
            && line[|lead| + |MARKER|..] == [SPACE] + PrintObject(ms) + [LF]
            && (TooLong(line) <==> |line| > 65_537)
  {
    hide PrintMembers, Lines, TooLong, Lead;
    var m, line := MarkerLine(ms), lead + MarkerLine(ms);
    PrintedIsPlainAscii(ms);
    MarkerLineShape(ms);
    MarkerIs();
    assert m[0] == m[..|MARKER|][0] == 35;
    LeadOf(lead, m);
    assert line[|lead|..|lead| + |MARKER|] == m[..|MARKER|];
    assert line[|lead| + |MARKER|..] == m[|MARKER|..];
    assert forall i :: 0 <= i < |line| - 1 ==> !IsBreak(line[i]);
    OneLine(line, |line| - 1);
    assert line[|line| - 2] == m[|m| - 2] == CLOSE_BRACE by { assert m[|MARKER|..][|m| - 2 - |MARKER|] == CLOSE_BRACE; }
    ContentOfLf(line);
    TooLongByHead(line);
    if |line| > MAX_LINE + 1 {
      MarkerLinesMight(line);
      assert line[..MAX_LINE + 1] + line[MAX_LINE + 1..] == line;
      MightBeMarkerShrinks(line[..MAX_LINE + 1], line[MAX_LINE + 1..]);
    }
  }

  lemma ContentOfLf(line: Str)
    requires |line| >= 2 && line[|line| - 1] == LF && line[|line| - 2] != CR
    ensures ContentLen(line) == |line| - 1
  {
  }

  // A printed marker line with any such lead: over the limit it leaves the note about that;
  // otherwise, if label and secret are there, its note and its credential, and not a
  // character of it goes to the log.
  lemma AnyLeadedLine(other: OtherValues, lead: Str, ms: seq<Member>)
    requires IsUnseenLead(lead)
    ensures var line, c := lead + MarkerLine(ms), FieldsOf(ms);
            Whole(Sanitizer(ParseMarker(other)), line) ==
              if |line| > 65_537 then Piece(NOTE_TOO_LONG, [])
              else if c.title == [] || c.secret == [] then Piece(NOTE_INVALID, [])
              else Piece(NoteStored(Kept(c).title), [Kept(c)])
  {
    hide MarkerLine, PrintObject, Lines, ParseRaw, NoteStored, CredentialOf, FieldsOf, LeadEnd, TooLongFrom, Kept, IsUnseenLead;
    var line, rule := lead + MarkerLine(ms), Sanitizer(ParseMarker(other));
    LeadedLine(lead, ms);
    AnyRaw(other, ms);
    ReadFields(ms);
    assert ProcessAll(rule, [line][1..]) == Nothing;
    JoinLaws(rule(line), Nothing, Nothing);
  }

  // ---- wherever it stands ----------------------------------------------------------------

  lemma FirstOfLines(t: Str, e: nat)
    requires t != [] && e == LineEnd(t)
    ensures Lines(t) == [t[..e]] + Lines(t[e..])
  {
  }

  lemma CutBehind(a: Str, b: Str, e: nat)
    requires e <= |a|
    ensures (a + b)[..e] == a[..e] && (a + b)[e..] == a[e..] + b
    ensures a != [] && a[|a| - 1] == LF && a[e..] != [] ==> a[e..][|a[e..]| - 1] == LF
  {
  }

  lemma ThreeSeqs<T>(a: seq<T>, b: seq<T>, c: seq<T>)
    ensures a + b + c == a + (b + c)
  {
  }

  lemma {:induction false} LinesBehind(a: Str, b: Str)
    requires a != [] ==> a[|a| - 1] == LF
    ensures Lines(a + b) == Lines(a) + Lines(b)
  {
    if a == [] {
      assert a + b == b;
    } else {
      hide BreakAt, Settled, LineEnd, Lines;
      var e := LineEnd(a);
      EndedIsSettled(a);
      SettledExtends(a, b);
      CutBehind(a, b, e);
      FirstOfLines(a, e);
      FirstOfLines(a + b, e);
      LinesBehind(a[e..], b);
      ThreeSeqs([a[..e]], Lines(a[e..]), Lines(b));
    }
  }

  lemma EndedIsSettled(a: Str)
    requires a != [] && a[|a| - 1] == LF
    ensures Settled(a)
  {
    assert IsBreak(a[|a| - 1]);
  }

  lemma {:induction false} ProcessAllJoins(rule: LineRule, a: seq<Str>, b: seq<Str>)
    ensures ProcessAll(rule, a + b) == Join(ProcessAll(rule, a), ProcessAll(rule, b))
  {
    if a == [] {
      assert a + b == b;
      JoinLaws(ProcessAll(rule, b), Nothing, Nothing);
    } else {
      assert (a + b)[1..] == a[1..] + b;
      ProcessAllJoins(rule, a[1..], b);
      JoinLaws(rule(a[0]), ProcessAll(rule, a[1..]), ProcessAll(rule, b));
    }
  }

  // The output of a job: something that ends with a line, a marker line behind an unseen lead,
  // and something more, in whatever chunks. The filter passes on what the rest comes to and
  // the note in between, and finds the credential.
  method FilterAround(other: OtherValues, before: Str, lead: Str, ms: seq<Member>, behind: Str, chunks: seq<Str>)
    returns (outs: seq<Str>, rest: Str, f: seq<Credential>)
    requires IsUnseenLead(lead) && (before != [] ==> before[|before| - 1] == LF)
    requires |lead + MarkerLine(ms)| <= 65_537 && FieldsOf(ms).title != [] && FieldsOf(ms).secret != []
    requires Concat(chunks) == before + (lead + MarkerLine(ms) + behind)
    ensures var rule := Sanitizer(ParseMarker(other));
            && Concat(outs) + rest == Whole(rule, before).out + NoteStored(Kept(FieldsOf(ms)).title) + Whole(rule, behind).out
            && f == Whole(rule, before).found + [Kept(FieldsOf(ms))] + Whole(rule, behind).found
  {
    hide Concat, Emitted, Lines, ProcessAll, MarkerLine, NoteStored, Kept, FieldsOf, ParseMarker, IsUnseenLead;
    var line := lead + MarkerLine(ms);
    var rule := Sanitizer(ParseMarker(other));
    outs, rest, f := FilterJob(ParseMarker(other), chunks);
    AnyLeadedLine(other, lead, ms);
    EndsInLf(lead, ms);
    LinesBehind(before, line + behind);
    LinesBehind(line, behind);
    ProcessAllJoins(rule, Lines(before), Lines(line) + Lines(behind));
    ProcessAllJoins(rule, Lines(line), Lines(behind));
  }

  lemma EndsInLf(lead: Str, ms: seq<Member>)
    ensures var line := lead + MarkerLine(ms); line != [] && line[|line| - 1] == LF
  {
    PrintedIsPlainAscii(ms);
    MarkerLineShape(ms);
    hide PrintMembers;
  }

  // ---- what the log says -----------------------------------------------------------------

  // The notes tell their cases apart, and the one for a stored credential its label.
  lemma NotesTellApart(a: Str, b: Str)
    ensures NOTE_TOO_LONG != NOTE_INVALID && NoteStored(a) != NOTE_TOO_LONG && NoteStored(a) != NOTE_INVALID
    ensures NoteStored(a) == NoteStored(b) <==> a == b
  {
    assert NOTE_TOO_LONG[|NOTE_TOO_LONG| - 3] == 'g' as int && NOTE_INVALID[|NOTE_INVALID| - 3] == 't' as int;
    assert NOTE_TOO_LONG[1] == 0x26A0 == NOTE_INVALID[1] && NoteStored(a)[1] == 0x2713;
    var n := |Codes("[✓ In Passwörtern gespeichert: ")|;
    assert NoteStored(a)[n..n + |a|] == a && NoteStored(b)[n..n + |b|] == b;
    assert |NoteStored(a)| == n + |a| + 2 && |NoteStored(b)| == n + |b| + 2;
  }

  // The blanks that are trimmed off a label, a user name and a note: tab to carriage return,
  // the four information separators, and every space, wide or narrow, but no zero-width one.
  lemma BlankIs(c: Code)
    ensures IsSpace(c) <==>
            c in {9, 10, 11, 12, 13, 28, 29, 30, 31, 32, 133, 160, 5760, 8192, 8193, 8194, 8195, 8196, 8197, 8198, 8199, 8200, 8201,
                  8202, 8232, 8233, 8239, 8287, 12288}
  {
  }

  ghost predicate AllBlank(s: Str) { forall i :: 0 <= i < |s| ==> IsSpace(s[i]) }

  lemma LeftPart(s: Str)
    ensures var l := TrimLeft(s); |l| <= |s| && s == s[..|s| - |l|] + l && AllBlank(s[..|s| - |l|])
  {
    hide IsSpace;
  }

  lemma RightPart(s: Str)
    ensures var r := TrimRight(s); |r| <= |s| && s == r + s[|r|..] && AllBlank(s[|r|..])
  {
    hide IsSpace;
    var r := TrimRight(s);
    assert forall i :: 0 <= i < |s[|r|..]| ==> s[|r|..][i] == s[|r| + i];
  }

  // Trimming takes blanks off both ends, and all of them.
  lemma StripIs(s: Str) returns (before: Str, behind: Str)
    ensures s == before + Strip(s) + behind && AllBlank(before) && AllBlank(behind)
    ensures Strip(s) != [] ==> !IsSpace(Strip(s)[0]) && !IsSpace(Strip(s)[|Strip(s)| - 1])
  {
    hide TrimLeft, TrimRight, AllBlank, IsSpace;
    var l := TrimLeft(s);
    var r := TrimRight(l);
    LeftPart(s);
    RightPart(l);
    before, behind := s[..|s| - |l|], l[|r|..];
    assert Strip(s) == r;
    hide Strip;
    ThreeSeqs(before, r, behind);
  }
}
