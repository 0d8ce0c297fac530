// A credential a script prints, all the way: into the vault, or not.
module MarkerJob {
  import opened Text
  import opened Wrappers
  import opened SecretLines
  import opened LineVerdicts
  import opened SecretFilter
  import opened FilterProperties
  import opened Json
  import opened Marker
  import opened MarkerLimits
  import opened JobsTable
  import opened AgentSocket
  import opened AgentJob
  import opened JobLog
  import I = Isolation
  import Outbox
  import J = Jobs

  // A marker line the server can read as one.
  ghost predicate IsReadable(ms: seq<Member>) {
    |MarkerLine(ms)| <= MAX_LINE + 1 && FieldsOf(ms).title != [] && FieldsOf(ms).secret != []
  }

  // ---- the line --------------------------------------------------------------------------

  lemma PrintedLine(other: OtherValues, ms: seq<Member>)
    requires IsReadable(ms)
    ensures var rule, line, p := Sanitizer(ParseMarker(other)), MarkerLine(ms), Piece(NoteStored(Kept(FieldsOf(ms)).title), [Kept(FieldsOf(ms))]);
            && Whole(rule, line) == p && Emitted(rule, line) == p
            && J.Encodable(line) && J.ByteLen(p.out) < J.MAX_OUTPUT_BYTES
  {
    hide Whole, NoteStored, FieldsOf, Kept, J.ByteLen, MarkerLine;
    var rule, line := Sanitizer(ParseMarker(other)), MarkerLine(ms);
    AnyMarkerLine(other, ms);
    NothingIsOpen(rule, ms);
    NoLineShown();
    WholeIsRunThenOpen(rule, line);
    EncodableMarkerLine(ms);
    JoinLaws(Run(rule, line).done, Nothing, Nothing);
    ShortNote(Kept(FieldsOf(ms)).title) by { ShortTitle(FieldsOf(ms)); }
  }

  lemma ShortTitle(c: Credential)
    ensures |Kept(c).title| <= MAX_LABEL
  {
  }

  lemma ShortNote(title: Str)
    requires |title| <= MAX_LABEL
    ensures J.ByteLen(NoteStored(title)) < J.MAX_OUTPUT_BYTES
  {
    J.AtMostFourEach(NoteStored(title));
  }

  lemma NothingIsOpen(rule: LineRule, ms: seq<Member>)
    ensures Run(rule, MarkerLine(ms)).open == []
  {
    hide MarkerLine, Lines, TooLong, IsMarkerLine, BreakAt, Process;
    var line := MarkerLine(ms);
    LineOfAny(ms);
    PrintedIsPlainAscii(ms);
    MarkerLineShape(ms);
    NextOfLines(line);
    assert line[LineEnd(line)..] == [];
    FirstLineEnds(line, []);
    assert line + [] == line;
  }

  lemma EncodableAscii(s: Str)
    requires forall i :: 0 <= i < |s| ==> s[i] <= 0x7E
    ensures J.Encodable(s)
  {
  }

  lemma EncodableMarkerLine(ms: seq<Member>)
    ensures J.Encodable(MarkerLine(ms))
  {
    PrintedIsPlainAscii(ms);
    MarkerLineShape(ms);
    EncodableAscii(PrintMembers(ms));
    EncodableAscii([OPEN_BRACE]);
    EncodableAscii([CLOSE_BRACE]);
    EncodableAscii([SPACE]);
    EncodableAscii([LF]);
    NothingSurrogate();
    hide PrintMembers, MarkerLine, J.Encodable;
    var line, inner := MarkerLine(ms), PrintMembers(ms);
    assert line == MARKER + line[|MARKER|..];
    EncodableParts([OPEN_BRACE], inner);
    EncodableParts([OPEN_BRACE] + inner, [CLOSE_BRACE]);
    EncodableParts([SPACE], PrintObject(ms));
    EncodableParts([SPACE] + PrintObject(ms), [LF]);
    EncodableParts(MARKER, line[|MARKER|..]);
  }

  lemma NothingSurrogate()
    ensures J.Encodable(MARKER)
  {
  }

  // Of the beginning of a marker line nothing is passed on.
  lemma BeginningShowsNothing(rule: LineRule, ms: seq<Member>, p: Str, rest: Str)
    requires IsReadable(ms) && p + rest == MarkerLine(ms) && rest != []
    ensures Emitted(rule, p) == Nothing
  {
    hide MarkerLine, PrintObject, Lines, TooLong, IsMarkerLine, MightBeMarker, BreakAt, FieldsOf;
    var line := MarkerLine(ms);
    LineOfAny(ms);
    PrintedIsPlainAscii(ms);
    MarkerLineShape(ms);
    assert forall i :: 0 <= i < |p| ==> p[i] == line[i];
    BreakIsFirst(p, |p|);
    if p != [] {
      assert !EndsLine(p) && IsOpen(p);
      if TooLong(p) { TooLongStays(p, rest); }
      MightAtAll(line);
      MightBeMarkerShrinks(p, rest);
      assert ModeOf(p) == Hold(p);
    } else {
      NoLineShown();
    }
  }

  lemma MightAtAll(line: Str)
    requires IsMarkerLine(line)
    ensures MightBeMarker(line)
  {
  }

  lemma {:induction false} ConcatAppend(a: seq<Str>, b: seq<Str>)
    ensures Concat(a + b) == Concat(a) + Concat(b)
  {
    if a == [] {
      assert a + b == b;
    } else {
      assert (a + b)[1..] == a[1..] + b;
      ConcatAppend(a[1..], b);
    }
  }

  // ---- the job ---------------------------------------------------------------------------

  // A job whose output is one readable marker line, in whatever chunks, reported over one
  // socket. Its credential is in the vault, its note in the log, and the job ends as reported,
  // exactly if every field, as cut to its limit, is free of lone surrogates. If one is not,
  // the vault and the log have nothing, the socket is gone, and the row is left running.
  lemma PrintedCredentialIff(other: OtherValues, ms: seq<Member>, w: I.World, c: nat, id: nat, said: seq<Outbox.Msg>)
    requires I.Listens(w, c) && IsNew(w.server, w.conns[c].device, id) && IsReadable(ms)
    requires Outbox.Spoke(said, Outbox.Ended) && Concat(Chunks(said)) == MarkerLine(ms)
    ensures var cred, row, end := Kept(FieldsOf(ms)), w.server.rows[id], said[|said| - 1];
            var t := Delivered(Sanitizer(ParseMarker(other)), w, c, id, said);
            if Storable(cred) then
              && t.server.vault == w.server.vault + [Entry(w.conns[c].device, id, cred)]
              && t.server.rows == w.server.rows[id := row.(status := J.ReportedStatus(end.word), exitCode := end.exitCode, output := NoteStored(cred.title))]
              && c in t.conns
            else
              && t.server.vault == w.server.vault
              && t.server.rows == w.server.rows[id := row.(status := J.Running)]
              && t == I.Leave(w.(server := t.server), c)
  {
    hide Whole, MarkerLine, Kept, FieldsOf, NoteStored, Emitted, IsReadable, J.Encodable, J.ByteLen, Delivered, J.Stored, Storable, StoreRaises,
         Logged, StoppedAt, LastTaken, ParseMarker, Said, IsNew, Chunks, Outbox.Spoke;
    var parse, line, cred := ParseMarker(other), MarkerLine(ms), Kept(FieldsOf(ms));
    EndsWithAResult(said);
    var rule, chunks, end := Sanitizer(parse), Chunks(said), said[|said| - 1];
    var t := Delivered(rule, w, c, id, said);
    PrintedLine(other, ms);
    OneRaises(cred);
    LogOfAJob(parse, w, c, id, said);
    if Storable(cred) {
      ShortLogIsWhole(parse, chunks);
      LoggedAs(rule, w.server, t.server, w.conns[c].device, id, chunks, cred, end.word, end.exitCode);
    } else {
      var k :| LastTaken(rule, chunks, k) && StoppedAt(rule, w.server, t.server, w.conns[c].device, id, chunks, k, [cred]);
      StoppedAs(other, ms, w.server, t.server, w.conns[c].device, id, chunks, k);
    }
  }

  lemma EndsWithAResult(said: seq<Outbox.Msg>)
    requires Outbox.Spoke(said, Outbox.Ended)
    ensures |said| >= 2 && said[|said| - 1].Result?
  {
  }

  lemma OneRaises(cred: Credential)
    ensures StoreRaises([cred]) <==> !Storable(cred)
    ensures Storeds([cred]) == if Storable(cred) then [cred] else []
  {
    hide Storable;
    assert cred in [cred];
    assert [cred][1..] == [];
  }

  lemma LoggedAs(rule: LineRule, s: Server, t: Server, device: nat, id: nat, chunks: seq<Str>, cred: Credential, word: string, exitCode: Option<int>)
    requires Logged(rule, s, t, device, id, chunks, word, exitCode)
    requires Whole(rule, Concat(chunks)) == Piece(NoteStored(cred.title), [cred]) && J.Stored(Said(rule, chunks)) == NoteStored(cred.title)
    ensures t.vault == s.vault + [Entry(device, id, cred)]
    ensures t.rows == s.rows[id := s.rows[id].(status := J.ReportedStatus(word), exitCode := exitCode, output := NoteStored(cred.title))]
  {
    hide Whole, J.Stored, Said, NoteStored, Concat;
    assert Entries(device, id, [cred]) == [Entry(device, id, cred)];
  }

  lemma StoppedAs(other: OtherValues, ms: seq<Member>, s: Server, t: Server, device: nat, id: nat, chunks: seq<Str>, k: int)
    requires IsReadable(ms) && Concat(chunks) == MarkerLine(ms) && !Storable(Kept(FieldsOf(ms))) && IsNew(s, device, id)
    requires var rule := Sanitizer(ParseMarker(other));
             LastTaken(rule, chunks, k) && StoppedAt(rule, s, t, device, id, chunks, k, [Kept(FieldsOf(ms))])
    ensures t.vault == s.vault && t.rows == s.rows[id := s.rows[id].(status := J.Running)]
  {
    hide MarkerLine, Kept, FieldsOf, NoteStored, Emitted, IsReadable, J.Encodable, J.ByteLen, Storable, StoreRaises, ParseMarker, Concat, J.Stored, Passed, Whole;
    var parse, cred := ParseMarker(other), Kept(FieldsOf(ms));
    var rule := Sanitizer(parse);
    var p, rest := Concat(chunks[..k]), Concat(chunks[k..]);
    PrintedLine(other, ms);
    OneRaises(cred);
    assert chunks == chunks[..k] + chunks[k..];
    ConcatAppend(chunks[..k], chunks[k..]);
    assert chunks[..|chunks|] == chunks && (rest == [] ==> p + rest == p);
    assert !StoreRaises(Emitted(rule, p).found) && rest != [];
    BeginningShowsNothing(rule, ms, p, rest);
    PassedJoins(parse, chunks[..k]);
    NoText();
    ShortIsWhole(Passed(rule, chunks[..k]));
    assert Entries(device, id, []) == [] && s.vault + [] == s.vault;
  }

  lemma NoText()
    ensures J.ByteLen([]) == 0
  {
  }

  // And after that: as long as nobody else reports on it, the row is timed out by a sweep that
  // finds it stale, or goes with its device, and nothing else ever happens to it.
  lemma LostCredentialTimesOut(other: OtherValues, ms: seq<Member>, w: I.World, c: nat, id: nat, said: seq<Outbox.Msg>, es: seq<I.Event>)
    requires I.Inv(w) && NobodyOn(w, id)
    requires I.Listens(w, c) && IsNew(w.server, w.conns[c].device, id) && IsReadable(ms) && !Storable(Kept(FieldsOf(ms)))
    requires Outbox.Spoke(said, Outbox.Ended) && Concat(Chunks(said)) == MarkerLine(ms)
    requires forall e :: e in es ==> !(e.Received? && e.m.id == id)
    ensures var rule, row := Sanitizer(ParseMarker(other)), w.server.rows[id].(status := J.Running);
            var rows := I.Run(rule, Delivered(rule, w, c, id, said), es).server.rows;
            && (id in rows <==> I.DeleteJobs(row.device) !in es)
            && (id in rows ==> rows[id] == if IsSwept(es, row) then row.(status := J.Timeout) else row)
  {
    hide Whole, MarkerLine, Kept, FieldsOf, NoteStored, IsReadable, Delivered, Storable, ParseMarker, Chunks, Outbox.Spoke, I.Inv, I.Run, IsSwept;
    var rule := Sanitizer(ParseMarker(other));
    var t := Delivered(rule, w, c, id, said);
    PrintedCredentialIff(other, ms, w, c, id, said);
    DeliveredKeepsInv(rule, w, c, id, said);
    assert NobodyOn(t, id);
    OnlyTheSweepEnds(rule, t, es, id);
  }

  lemma {:induction false} DeliveredKeepsInv(rule: LineRule, w: I.World, c: nat, id: nat, said: seq<Outbox.Msg>)
    requires I.Inv(w)
    ensures I.Inv(Delivered(rule, w, c, id, said))
    decreases |said|
  {
    hide I.Inv, I.Run, Exchange;
    if said != [] {
      var front := said[..|said| - 1];
      DeliveredKeepsInv(rule, w, c, id, front);
      I.RunKeepsInv(rule, Delivered(rule, w, c, id, front), Exchange(c, AsReport(said[|said| - 1], id)));
    }
  }
}
