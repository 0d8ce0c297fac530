// The verdict on a line does not depend on how much of it has arrived: the facts that
// let the streaming filter decide on a fragment.
module LineVerdicts {
  import opened Text
  import opened SecretLines

  // A fragment that already differs from lead-plus-marker never becomes a marker line.
  lemma MightBeMarkerShrinks(t: Str, x: Str)
    requires MightBeMarker(t + x)
    ensures MightBeMarker(t)
  {
    MarkerFacts();
    LeadExtends(t, x);
    var l := Lead(t);
    if l < |t| {
      var u := t + x;
      assert u[l..] == t[l..] + x;
      if StartsMarker(u, l) {
        if |t| < l + |MARKER| {
          assert t[l..] == u[l..l + |MARKER|][..|t| - l];
        } else {
          assert t[l..l + |MARKER|] == u[l..l + |MARKER|];
        }
      } else {
        assert Take(t[l..], |MARKER| + 1) <= Take(u[l..], |MARKER| + 1);
      }
    }
  }

  // The over-long verdict is taken on the first MAX_LINE + 1 characters alone.
  lemma TooLongByHead(t: Str)
    ensures TooLong(t) <==> ContentLen(t) > MAX_LINE && MightBeMarker(t[..MAX_LINE + 1])
  {
    if ContentLen(t) > MAX_LINE {
      var head, tail := t[..MAX_LINE + 1], t[MAX_LINE + 1..];
      assert t == head + tail;
      LeadExtends(head, tail);
    }
  }

  lemma ContentGrows(t: Str, x: Str)
    requires !EndsLine(t)
    ensures ContentLen(t + x) >= |t| == ContentLen(t)
  {
    if |x| == 1 && t != [] { assert (t + x)[|t| - 1] == t[|t| - 1]; }
  }

  lemma TooLongStays(t: Str, x: Str)
    requires TooLong(t) && !EndsLine(t)
    ensures TooLong(t + x)
  {
    ContentGrows(t, x);
    TooLongByHead(t);
    TooLongByHead(t + x);
    assert (t + x)[..MAX_LINE + 1] == t[..MAX_LINE + 1];
  }

  ghost predicate IsPlain(t: Str) { !TooLong(t) && !IsMarkerLine(t) }

  // A fragment that is passed on at once.
  ghost predicate IsPlainFragment(t: Str) {
    !EndsLine(t) && !TooLong(t) && !MightBeMarker(t)
  }

  lemma PlainFragmentStays(t: Str, x: Str)
    requires IsPlainFragment(t)
    ensures IsPlain(t + x) && !MightBeMarker(t + x)
  {
    if MightBeMarker(t + x) { MightBeMarkerShrinks(t, x); }
    TooLongByHead(t);
    TooLongByHead(t + x);
    ContentGrows(t, x);
    if ContentLen(t + x) > MAX_LINE {
      var head := (t + x)[..MAX_LINE + 1];
      if |t| <= MAX_LINE {
        var y := x[..MAX_LINE + 1 - |t|];
        assert head == t + y;
        if MightBeMarker(t + y) { MightBeMarkerShrinks(t, y); }
      } else {
        assert head == t[..MAX_LINE + 1];
      }
    }
  }

  // The LF of a CRLF adds nothing to the verdict on the line.
  lemma TheLfOfACrlf(t: Str)
    requires LastIs(t, CR)
    ensures TooLong(t + [LF]) == TooLong(t)
    ensures IsMarkerLine(t + [LF]) == IsMarkerLine(t)
  {
    var u := t + [LF];
    TooLongByHead(t);
    TooLongByHead(u);
    assert u[|u| - 2] == CR && ContentLen(u) == ContentLen(t);
    if ContentLen(t) > MAX_LINE { assert u[..MAX_LINE + 1] == t[..MAX_LINE + 1]; }
    MarkerFacts();
    LeadExtends(t, [LF]);
    var l := Lead(t);
    if l < |t| {
      assert forall i :: 0 <= i < |t| ==> u[i] == t[i];
      if StartsMarker(u, l) {
        assert MARKER[|MARKER| - 1] == u[l..l + |MARKER|][|MARKER| - 1] == u[l + |MARKER| - 1];
        assert t[l..l + |MARKER|] == u[l..l + |MARKER|];
      }
      if StartsMarker(t, l) { assert u[l..l + |MARKER|] == t[l..l + |MARKER|]; }
    } else {
      LeadExtendsAll(t, [LF]);
    }
  }

  lemma LeadExtendsAll(t: Str, x: Str)
    requires Lead(t) == |t|
    requires forall i :: 0 <= i < |x| ==> IsLead(x[i])
    ensures Lead(t + x) == |t + x|
  {
    var r := Lead(t + x);
    assert forall i :: 0 <= i < |t + x| ==> IsLead((t + x)[i]);
  }

  lemma LoneLfIsPlain(parse: Parser)
    ensures Process(parse, [LF]) == SecretLines.Plain([LF])
  {
    MarkerFacts();
  }

  lemma PlainIsUnchanged(parse: Parser, t: Str)
    requires IsPlain(t)
    ensures Process(parse, t) == SecretLines.Plain(t)
  {
  }

  lemma TooLongIsANote(parse: Parser, t: Str)
    requires TooLong(t)
    ensures Process(parse, t) == SecretLines.Plain(NOTE_TOO_LONG)
  {
  }

  // ---- cutting ------------------------------------------------------------------------

  // `line` is what the line pattern matches first in line + rest.
  ghost predicate IsFirstLine(line: Str, rest: Str) {
    line != [] && LineEnd(line + rest) == |line|
  }

  lemma FirstLineEnds(line: Str, rest: Str)
    requires IsFirstLine(line, rest)
    ensures rest != [] ==> EndsLine(line)
    ensures Settled(line + rest) <==> LastIs(line, LF) || (EndsLine(line) && rest != [])
    ensures IsOpen(line) <==> !LastIs(line, LF)
  {
    var t := line + rest;
    var b := BreakAt(t, 0);
    assert forall i :: 0 <= i < |line| ==> t[i] == line[i];
    BreakIsFirst(line, if b < |line| then b else |line|);
  }

  lemma BreakIsFirst(t: Str, b: nat)
    requires b <= |t|
    requires forall i :: 0 <= i < b ==> !IsBreak(t[i])
    requires b < |t| ==> IsBreak(t[b])
    ensures BreakAt(t, 0) == b
  {
    var c := BreakAt(t, 0);
    assert c < |t| ==> IsBreak(t[c]);
    assert b < |t| ==> IsBreak(t[b]);
  }

  // How an open line goes on: one that ends on a CR waits for the LF of a CRLF ...
  lemma AfterCr(open: Str, x: Str)
    requires open != [] && IsOpen(open) && EndsLine(open)
    ensures LastIs(open, CR) && IsFirstLine(open, [])
    ensures x != [] && x[0] == LF ==> IsFirstLine(open + [LF], x[1..]) && (open + [LF]) + x[1..] == open + x
    ensures x != [] && x[0] != LF ==> IsFirstLine(open, x)
    ensures x != [] ==> Settled(open + x)
  {
    assert open + [] == open;
    var n := |open| - 1;
    BreakIsFirst(open, n);
    assert forall i :: 0 <= i < |open| ==> (open + x)[i] == open[i];
    BreakIsFirst(open + x, n);
    if x != [] {
      assert (open + x)[n + 1] == x[0];
      assert x[0] == LF ==> (open + [LF]) + x[1..] == open + x;
    }
  }

  // ... and one without a line break is finished by the first break that comes.
  lemma AfterFragment(open: Str, x: Str)
    requires IsOpen(open) && !EndsLine(open)
    requires x != []
    ensures IsFirstLine(open + x[..LineEnd(x)], x[LineEnd(x)..])
    ensures (open + x[..LineEnd(x)]) + x[LineEnd(x)..] == open + x
  {
    NoBreakInside(open);
    BreakShifts(open, x);
    LineEndShifts(open, x);
    hide LineEnd, BreakAt, IsOpen, EndsLine;
    var e := LineEnd(x);
    assert (open + x[..e]) + x[e..] == open + x;
  }

  lemma FragmentGrows(open: Str, x: Str)
    requires IsOpen(open) && !EndsLine(open)
    requires BreakAt(x, 0) == |x|
    ensures IsOpen(open + x) && !EndsLine(open + x)
  {
    NoBreakInside(open);
    BreakShifts(open, x);
    if x != [] {
      assert !IsBreak(x[|x| - 1]);
    } else {
      assert open + x == open;
    }
  }

  lemma BreakShifts(open: Str, x: Str)
    requires forall i :: 0 <= i < |open| ==> !IsBreak(open[i])
    ensures BreakAt(open + x, 0) == |open| + BreakAt(x, 0)
  {
    var t := open + x;
    forall i | 0 <= i < |open| + BreakAt(x, 0)
      ensures !IsBreak(t[i])
    {
      if i < |open| { assert t[i] == open[i]; } else { assert t[i] == x[i - |open|]; }
    }
    BreakIsFirst(t, |open| + BreakAt(x, 0));
  }

  lemma LineEndShifts(open: Str, x: Str)
    requires x != []
    requires BreakAt(open + x, 0) == |open| + BreakAt(x, 0)
    ensures LineEnd(open + x) == |open| + LineEnd(x)
  {
    hide BreakAt;
    var t, b := open + x, BreakAt(x, 0);
    if b < |x| { assert t[|open| + b] == x[b]; }
    if b + 1 < |x| { assert t[|open| + b + 1] == x[b + 1]; }
  }

  lemma NoBreakInside(open: Str)
    requires IsOpen(open) && !EndsLine(open)
    ensures forall i :: 0 <= i < |open| ==> !IsBreak(open[i])
  {
    if open != [] {
      var b := BreakAt(open, 0);
      assert b == |open| - 1 ==> EndsLine(open);
    }
  }

  lemma RunFirstLine(rule: LineRule, line: Str, rest: Str)
    requires IsFirstLine(line, rest) && Settled(line + rest)
    ensures Run(rule, line + rest) ==
            Progress(Join(rule(line), Run(rule, rest).done), Run(rule, rest).open)
  {
    assert (line + rest)[..|line|] == line;
    assert (line + rest)[|line|..] == rest;
  }

  lemma RunOpen(rule: LineRule, t: Str)
    requires IsOpen(t)
    ensures Run(rule, t) == Progress(Nothing, t)
  {
  }
}
