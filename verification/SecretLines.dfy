// What the credential filter does to a whole text, line by line: the reference the
// streaming filter in SecretFilter.dfy is proved against. Nothing here knows chunks.
module SecretLines {
  import opened Text
  import opened Wrappers

  const MARKER: Str := Codes("##RMM-CRED##")
  const MAX_LINE: nat := 64 * 1024

  // `title` is the source's "label" (a reserved word here).
  datatype Credential = Credential(title: Str, secret: Str, username: Str, notes: Str)

  // The text after the marker, or None where the server calls it malformed. Every
  // result about lines and chunks holds for any such function; Marker.dfy gives one.
  type Parser = Str -> Option<Credential>

  const NOTE_INVALID: Str := Codes("[⚠ RMM-CRED-Zeile ignoriert: ungültiges Format]\n")
  const NOTE_TOO_LONG: Str := Codes("[⚠ RMM-CRED-Zeile ignoriert: zu lang]\n")

  function NoteStored(title: Str): Str {
    Codes("[✓ In Passwörtern gespeichert: ") + title + Codes("]\n")
  }

  // Sanitised output together with the credentials found in it.
  datatype Piece = Piece(out: Str, found: seq<Credential>)

  const Nothing: Piece := Piece([], [])

  function Plain(out: Str): Piece { Piece(out, []) }

  function Join(a: Piece, b: Piece): Piece { Piece(a.out + b.out, a.found + b.found) }

  lemma JoinLaws(a: Piece, b: Piece, c: Piece)
    ensures Join(a, Join(b, c)) == Join(Join(a, b), c)
    ensures Join(a, Nothing) == a == Join(Nothing, a)
  {
  }

  // ---- the lead in front of a marker ------------------------------------------------

  predicate IsLead(c: Code) {
    || IsSpace(c)
    || 0x00 <= c <= 0x1F
    || 0x7F <= c <= 0x9F
    || c in {0xAD, 0x61C, 0x180E, 0xFEFF}
    || 0x200B <= c <= 0x200F
    || 0x202A <= c <= 0x202E
    || 0x2060 <= c <= 0x206F
  }

  function LeadEnd(t: Str, start: nat): (r: nat)
    requires start <= |t|
    ensures start <= r <= |t|
    ensures forall i :: start <= i < r ==> IsLead(t[i])
    ensures r < |t| ==> !IsLead(t[r])
    decreases |t| - start
  {
    if start < |t| && IsLead(t[start]) then LeadEnd(t, start + 1) else start
  }

  function Lead(t: Str): nat { LeadEnd(t, 0) }

  // Resuming behind characters already known to be lead changes nothing.
  lemma LeadResumes(t: Str, start: nat)
    requires start <= |t|
    requires forall i :: 0 <= i < start ==> IsLead(t[i])
    ensures LeadEnd(t, start) == Lead(t)
  {
    var r, l := LeadEnd(t, start), Lead(t);
    assert r < |t| ==> !IsLead(t[r]);
    assert l < |t| ==> !IsLead(t[l]);
  }

  lemma LeadExtends(t: Str, x: Str)
    ensures Lead(t) <= Lead(t + x)
    ensures Lead(t) < |t| ==> Lead(t + x) == Lead(t)
  {
    var l, r := Lead(t), Lead(t + x);
    assert r < |t| ==> !IsLead((t + x)[r]) && (t + x)[r] == t[r];
    assert l < |t| ==> !IsLead(t[l]) && (t + x)[l] == t[l];
  }

  lemma MarkerFacts()
    ensures |MARKER| == 12
    ensures !IsLead(MARKER[0])
    ensures forall i :: 0 <= i < |MARKER| ==> MARKER[i] != CR && MARKER[i] != LF
  {
    var s := "##RMM-CRED##";
    assert forall i :: 0 <= i < |s| ==> s[i] != '\r' && s[i] != '\n';
    assert MARKER[0] == '#' as int;
  }

  // ---- marker lines -----------------------------------------------------------------

  // text.startswith(MARKER, lead)
  predicate StartsMarker(t: Str, lead: nat) {
    lead + |MARKER| <= |t| && t[lead..lead + |MARKER|] == MARKER
  }

  predicate CouldBecomeMarker(t: Str, lead: nat)
    requires lead <= |t|
  {
    StartsMarker(t, lead) || Take(t[lead..], |MARKER| + 1) <= MARKER
  }

  predicate IsMarkerLine(t: Str) { StartsMarker(t, Lead(t)) }
  predicate MightBeMarker(t: Str) { CouldBecomeMarker(t, Lead(t)) }

  function LastIs(t: Str, c: Code): bool { t != [] && t[|t| - 1] == c }

  predicate EndsLine(t: Str) { LastIs(t, LF) || LastIs(t, CR) }

  function ContentLen(line: Str): (r: nat)
    ensures |line| - 2 <= r <= |line|
    ensures r == |line| <==> !EndsLine(line)
  {
    if LastIs(line, LF) && 2 <= |line| && line[|line| - 2] == CR then |line| - 2
    else if EndsLine(line) then |line| - 1
    else |line|
  }

  predicate TooLongFrom(line: Str, lead: nat) {
    && ContentLen(line) > MAX_LINE
    && var head := line[..MAX_LINE + 1];
       CouldBecomeMarker(head, if lead < |head| then lead else |head|)
  }

  predicate TooLong(line: Str) { TooLongFrom(line, Lead(line)) }

  function ProcessFrom(parse: Parser, line: Str, lead: nat): Piece
  {
    if TooLongFrom(line, lead) then Plain(NOTE_TOO_LONG)
    else if StartsMarker(line, lead) then
      match parse(line[lead + |MARKER|..])
      case Some(cred) => Piece(NoteStored(cred.title), [cred])
      case None => Plain(NOTE_INVALID)
    else Plain(line)
  }

  function Process(parse: Parser, line: Str): Piece { ProcessFrom(parse, line, Lead(line)) }

  // ---- lines of a text: LF, CRLF or a lone CR ends one, nothing else ------------------

  predicate IsBreak(c: Code) { c == LF || c == CR }

  function BreakAt(t: Str, start: nat): (r: nat)
    requires start <= |t|
    ensures start <= r <= |t|
    ensures forall i :: start <= i < r ==> !IsBreak(t[i])
    ensures r < |t| ==> IsBreak(t[r])
    decreases |t| - start
  {
    if start < |t| && !IsBreak(t[start]) then BreakAt(t, start + 1) else start
  }

  function LineEnd(t: Str): (r: nat)
    requires t != []
    ensures 0 < r <= |t|
  {
    var b := BreakAt(t, 0);
    if b == |t| then |t|
    else if t[b] == CR && b + 1 < |t| && t[b + 1] == LF then b + 2
    else b + 1
  }

  function Lines(t: Str): (r: seq<Str>)
    ensures r == [] <==> t == []
  {
    if t == [] then [] else [t[..LineEnd(t)]] + Lines(t[LineEnd(t)..])
  }

  // What happens to a line is a parameter here, so that the facts about cutting a text
  // into lines are independent of it; Sanitizer is the instance the server uses.
  type LineRule = Str -> Piece

  function Sanitizer(parse: Parser): LineRule { line => Process(parse, line) }

  function ProcessAll(rule: LineRule, lines: seq<Str>): Piece {
    if lines == [] then Nothing
    else Join(rule(lines[0]), ProcessAll(rule, lines[1..]))
  }

  // The whole job output at once: what the streaming filter has to amount to.
  function Whole(rule: LineRule, t: Str): Piece { ProcessAll(rule, Lines(t)) }

  // ---- the same text cut into settled lines and one open line --------------------------

  // The extent of the first line no longer depends on what follows: a CR at the very
  // end may still be half of a CRLF.
  predicate Settled(t: Str) {
    var b := BreakAt(t, 0);
    b < |t| && (t[b] == LF || b + 1 < |t|)
  }

  datatype Progress = Progress(done: Piece, open: Str)

  function Run(rule: LineRule, t: Str): (r: Progress)
    ensures IsOpen(r.open)
  {
    if t == [] || !Settled(t) then Progress(Nothing, t)
    else
      var e := LineEnd(t);
      var rest := Run(rule, t[e..]);
      Progress(Join(rule(t[..e]), rest.done), rest.open)
  }

  predicate IsOpen(t: Str) { t == [] || !Settled(t) }

  lemma SettledExtends(t: Str, x: Str)
    requires t != [] && Settled(t)
    ensures Settled(t + x) && LineEnd(t + x) == LineEnd(t)
  {
    var b, c := BreakAt(t, 0), BreakAt(t + x, 0);
    assert (t + x)[b] == t[b];
    assert forall i :: 0 <= i < |t| ==> (t + x)[i] == t[i];
    if b + 1 < |t| { assert (t + x)[b + 1] == t[b + 1]; }
  }

  // Reading on from the open line is the same as starting over.
  lemma {:induction false} RunAppend(rule: LineRule, t: Str, x: Str)
    ensures Run(rule, t + x) ==
            Progress(Join(Run(rule, t).done, Run(rule, Run(rule, t).open + x).done),
                     Run(rule, Run(rule, t).open + x).open)
  {
    if t == [] || !Settled(t) {
      JoinLaws(Run(rule, t + x).done, Nothing, Nothing);
    } else {
      var e := LineEnd(t);
      SettledExtends(t, x);
      assert (t + x)[..e] == t[..e];
      assert (t + x)[e..] == t[e..] + x;
      RunAppend(rule, t[e..], x);
      JoinLaws(rule(t[..e]), Run(rule, t[e..]).done, Run(rule, Run(rule, t).open + x).done);
    }
  }

  lemma {:induction false} WholeIsRunThenOpen(rule: LineRule, t: Str)
    ensures Whole(rule, t) ==
            var r := Run(rule, t);
            if r.open == [] then r.done else Join(r.done, rule(r.open))
  {
    if t == [] {
    } else if Settled(t) {
      var e := LineEnd(t);
      assert Lines(t)[0] == t[..e] && Lines(t)[1..] == Lines(t[e..]);
      WholeIsRunThenOpen(rule, t[e..]);
      var r := Run(rule, t[e..]);
      JoinLaws(rule(t[..e]), r.done, rule(r.open));
    } else {
      assert LineEnd(t) == |t| && t[..|t|] == t && t[|t|..] == [];
      assert Lines(t) == [t];
      assert ProcessAll(rule, [t][1..]) == Nothing;
      JoinLaws(rule(t), Nothing, Nothing);
    }
  }
}
