// From the agent's messages to the job's row: what a script printed is what its log holds,
// unless a credential in it cannot be stored.
module JobLog {
  import opened Text
  import opened Wrappers
  import opened SecretLines
  import opened SecretFilter
  import opened JobFilters
  import opened FilterProperties
  import opened JobsTable
  import opened AgentSocket
  import opened AgentJob
  import I = Isolation
  import Outbox
  import J = Jobs

  function AsReport(m: Outbox.Msg, id: nat): Report {
    match m
    case Output(_, chunk) => JobOutput(id, chunk)
    case Result(_, word, exitCode) => JobResult(id, word, exitCode)
    case _ => JobStarted(id)
  }

  // A report on socket c, and its handler with nothing in between.
  function Exchange(c: nat, m: Report): seq<I.Event> { [I.Received(c, m), I.LookedUp(c), I.Resumed(c), I.Done(c)] }

  // The messages of a goroutine arriving one by one on the socket it was started for: it has
  // no other, and what comes after the socket has gone goes nowhere.
  function Delivered(rule: LineRule, w: I.World, c: nat, id: nat, said: seq<Outbox.Msg>): I.World {
    if said == [] then w
    else I.Run(rule, Delivered(rule, w, c, id, said[..|said| - 1]), Exchange(c, AsReport(said[|said| - 1], id)))
  }

  // What each chunk adds to the log.
  function Passed(rule: LineRule, chunks: seq<Str>): seq<Str> {
    if chunks == [] then []
    else
      var front := chunks[..|chunks| - 1];
      Passed(rule, front) + [Increment(rule, Concat(front), chunks[|chunks| - 1]).out]
  }

  function Said(rule: LineRule, chunks: seq<Str>): seq<Str> {
    Passed(rule, chunks) + [Remainder(rule, Concat(chunks)).out]
  }

  // ---- no exception ----------------------------------------------------------------------

  lemma EncodableParts(a: Str, b: Str)
    ensures J.Encodable(a + b) <==> J.Encodable(a) && J.Encodable(b)
  {
    assert forall i :: 0 <= i < |a| ==> (a + b)[i] == a[i];
    assert forall i :: 0 <= i < |b| ==> (a + b)[|a| + i] == b[i];
  }

  lemma StorableParts(a: seq<Credential>, b: seq<Credential>)
    ensures StoreRaises(a + b) <==> StoreRaises(a) || StoreRaises(b)
  {
    assert forall c :: c in a + b <==> c in a || c in b;
  }

  lemma EncodableLine(parse: Parser, line: Str)
    requires J.Encodable(line) && !StoreRaises(Process(parse, line).found)
    ensures J.Encodable(Process(parse, line).out)
  {
    hide LeadEnd, TooLongFrom, StartsMarker;
    var p := Process(parse, line);
    if p.found != [] {
      var cred := p.found[0];
      assert p.out == NoteStored(cred.title) && cred in p.found;
    }
  }

  // Clean text and clean credentials leave a clean log.
  lemma {:induction false} EncodableRun(parse: Parser, t: Str)
    requires J.Encodable(t) && !StoreRaises(Run(Sanitizer(parse), t).done.found)
    ensures J.Encodable(Run(Sanitizer(parse), t).done.out) && J.Encodable(Run(Sanitizer(parse), t).open)
  {
    hide LineEnd, Settled, Process, J.Encodable, StoreRaises;
    assert J.Encodable([]) by { NothingToEncode(); }
    if t != [] && Settled(t) {
      var e := LineEnd(t);
      var rest := Run(Sanitizer(parse), t[e..]);
      assert t == t[..e] + t[e..];
      EncodableParts(t[..e], t[e..]);
      StorableParts(Process(parse, t[..e]).found, rest.done.found);
      EncodableLine(parse, t[..e]);
      EncodableRun(parse, t[e..]);
      EncodableParts(Process(parse, t[..e]).out, rest.done.out);
    }
  }

  lemma NothingToEncode()
    ensures J.Encodable([]) && J.Encodable(NOTE_TOO_LONG)
  {
  }

  lemma EncodableSoFar(parse: Parser, t: Str)
    requires J.Encodable(t) && !StoreRaises(Whole(Sanitizer(parse), t).found)
    ensures J.Encodable(Emitted(Sanitizer(parse), t).out) && J.Encodable(Whole(Sanitizer(parse), t).out)
  {
    hide Run, ModeOf, Process, J.Encodable, StoreRaises, Whole;
    var rule := Sanitizer(parse);
    var r := Run(rule, t);
    WholeIsRunThenOpen(rule, t);
    if r.open != [] { StorableParts(r.done.found, Process(parse, r.open).found); }
    EncodableRun(parse, t);
    NothingToEncode();
    EncodableParts(r.done.out, Shown(r.open));
    if r.open != [] {
      EncodableLine(parse, r.open);
      EncodableParts(r.done.out, Process(parse, r.open).out);
    }
  }

  lemma CleanEmitted(parse: Parser, t: Str)
    requires J.Encodable(t) && !StoreRaises(Emitted(Sanitizer(parse), t).found)
    ensures J.Encodable(Emitted(Sanitizer(parse), t).out)
  {
    hide Run, J.Encodable, StoreRaises, Process;
    var r := Run(Sanitizer(parse), t);
    assert Emitted(Sanitizer(parse), t).found == r.done.found;
    EncodableRun(parse, t);
    NothingToEncode();
    EncodableParts(r.done.out, Shown(r.open));
  }

  // Credentials are stored up to the first that raises.
  lemma StoredParts(a: seq<Credential>, b: seq<Credential>)
    ensures Storeds(a + b) == if StoreRaises(a) then Storeds(a) else a + Storeds(b)
  {
    hide Storable, StoreRaises, Storeds;
    if a == [] {
      NothingStored(0, 0, []);
      assert a + b == b;
    } else {
      assert a == [a[0]] + a[1..] && a + b == [a[0]] + (a[1..] + b);
      OneAhead(a[0], a[1..]);
      OneAhead(a[0], a[1..] + b);
      StoredParts(a[1..], b);
    }
  }

  lemma PrefixOf<T>(a: seq<T>, b: seq<T>)
    requires a <= b
    ensures b == a + b[|a|..]
  {
  }

  // A prefix that raises decides what is stored; one of a clean list is clean.
  lemma RaisesInPrefix(a: seq<Credential>, b: seq<Credential>)
    requires a <= b
    ensures StoreRaises(a) ==> StoreRaises(b) && Storeds(b) == Storeds(a)
  {
    hide Storable, StoreRaises, Storeds;
    PrefixOf(a, b);
    StorableParts(a, b[|a|..]);
    StoredParts(a, b[|a|..]);
  }

  // ---- the job's log -------------------------------------------------------------------------

  lemma {:induction false} PassedJoins(parse: Parser, chunks: seq<Str>)
    ensures Concat(Passed(Sanitizer(parse), chunks)) == Emitted(Sanitizer(parse), Concat(chunks)).out
    ensures Concat(Said(Sanitizer(parse), chunks)) == Whole(Sanitizer(parse), Concat(chunks)).out
    decreases |chunks|
  {
    hide Emitted, Whole, Concat;
    var rule := Sanitizer(parse);
    NothingIsTakenBack(parse, Concat(chunks), []);
    ConcatSnoc(Passed(rule, chunks), Remainder(rule, Concat(chunks)).out);
    if chunks == [] {
      NothingEmitted(rule);
    } else {
      var front, last := chunks[..|chunks| - 1], chunks[|chunks| - 1];
      PassedJoins(parse, front);
      assert chunks == front + [last];
      ConcatSnoc(front, last);
      NothingIsTakenBack(parse, Concat(front), last);
      ConcatSnoc(Passed(rule, front), Increment(rule, Concat(front), last).out);
    }
  }

  // The server once a job's `chunks` have been reported, and nothing else about it.
  ghost predicate At(rule: LineRule, s: Server, t: Server, device: nat, id: nat, chunks: seq<Str>) {
    && id in s.rows
    && t.rows == s.rows[id := s.rows[id].(status := J.Running, output := J.Stored(Passed(rule, chunks)))]
    && t.vault == s.vault + Entries(device, id, Emitted(rule, Concat(chunks)).found)
    && FedText(t.fed, id) == Concat(chunks) && t.fed - {id} == s.fed
  }

  lemma AfterIsRest(a: Piece, b: Piece)
    requires a.out <= b.out && a.found <= b.found
    ensures a.out + After(a, b).out == b.out && a.found + After(a, b).found == b.found
  {
  }

  lemma EntriesJoin(device: nat, id: nat, a: seq<Credential>, b: seq<Credential>)
    ensures Entries(device, id, a) + Entries(device, id, b) == Entries(device, id, a + b)
  {
  }

  // What a chunk adds: it raises exactly if the credentials so far do, and what is stored adds
  // up to what is stored of them all.
  lemma IncrementAdds(parse: Parser, before: Str, chunk: Str)
    requires J.Encodable(before + chunk) && !StoreRaises(Emitted(Sanitizer(parse), before).found)
    ensures var a, b := Emitted(Sanitizer(parse), before), Emitted(Sanitizer(parse), before + chunk);
            var p := Increment(Sanitizer(parse), before, chunk);
            && a.found + Storeds(p.found) == Storeds(b.found) && (StoreRaises(p.found) <==> StoreRaises(b.found))
            && (!StoreRaises(p.found) ==> J.Encodable(p.out) && Storeds(p.found) == p.found && Storeds(b.found) == b.found)
  {
    hide Whole, Emitted, J.Encodable, StoreRaises, Storeds, After;
    var a, b := Emitted(Sanitizer(parse), before), Emitted(Sanitizer(parse), before + chunk);
    NothingIsTakenBack(parse, before, chunk);
    AfterIsRest(a, b);
    StorableParts(a.found, After(a, b).found);
    StoredParts(a.found, After(a, b).found);
    AllStored(After(a, b).found);
    AllStored(b.found);
    if !StoreRaises(b.found) {
      CleanEmitted(parse, before + chunk);
      EncodableParts(a.out, After(a, b).out);
    }
  }

  lemma AllStored(found: seq<Credential>)
    ensures Storeds(found) == found <==> !StoreRaises(found)
  {
  }

  // The same of the end of the job.
  lemma RemainderAdds(parse: Parser, text: Str)
    requires J.Encodable(text) && !StoreRaises(Emitted(Sanitizer(parse), text).found)
    ensures var a, b := Emitted(Sanitizer(parse), text), Whole(Sanitizer(parse), text);
            var p := Remainder(Sanitizer(parse), text);
            && a.found + Storeds(p.found) == Storeds(b.found) && (StoreRaises(p.found) <==> StoreRaises(b.found))
            && (!StoreRaises(p.found) ==> J.Encodable(p.out) && Storeds(p.found) == p.found && Storeds(b.found) == b.found)
  {
    hide Whole, Emitted, J.Encodable, StoreRaises, Storeds, After;
    var a, b := Emitted(Sanitizer(parse), text), Whole(Sanitizer(parse), text);
    NothingIsTakenBack(parse, text, []);
    AfterIsRest(a, b);
    StorableParts(a.found, After(a, b).found);
    StoredParts(a.found, After(a, b).found);
    AllStored(After(a, b).found);
    AllStored(b.found);
    if !StoreRaises(b.found) {
      EncodableSoFar(parse, text);
      EncodableParts(a.out, After(a, b).out);
    }
  }

  lemma Unraised(rows: J.Table, id: nat, p: Piece)
    requires J.Encodable(p.out)
    ensures Fails(rows, id, p) <==> StoreRaises(p.found)
  {
  }

  lemma AppendedRow(rows: J.Table, id: nat, row: J.Job, outs: seq<Str>, out: Str)
    requires id in rows && rows[id] == row.(output := J.Stored(outs)) && !J.Terminal(row.status) && J.Encodable(out)
    ensures Appended(rows, id, out) == rows[id := row.(output := J.Stored(outs + [out]))]
  {
    hide J.Stored, J.Append, J.Encodable;
    J.AppendStep(rows[id], outs, out);
    if out == [] {
      assert J.Append(rows[id], out) == rows[id] by { NothingAppended(rows[id]); }
      assert rows[id := rows[id]] == rows;
    }
  }

  lemma NothingAppended(row: J.Job)
    ensures J.Append(row, []) == row
  {
  }

  lemma OutputArrives(parse: Parser, s: Server, t: Server, device: nat, id: nat, chunks: seq<Str>, chunk: Str)
    requires At(Sanitizer(parse), s, t, device, id, chunks)
    requires J.Encodable(Concat(chunks) + chunk)
    requires !StoreRaises(Emitted(Sanitizer(parse), Concat(chunks)).found)
    requires !StoreRaises(Emitted(Sanitizer(parse), Concat(chunks) + chunk).found)
    ensures At(Sanitizer(parse), s, ApplyReport(Sanitizer(parse), t, device, JobOutput(id, chunk)), device, id, chunks + [chunk])
    ensures !Raises(Sanitizer(parse), t, JobOutput(id, chunk))
  {
    hide Concat, Whole, Emitted, J.Encodable, StoreRaises, Storeds, Entries, Increment, Fails, ApplyReport;
    var rule, before := Sanitizer(parse), Concat(chunks);
    var p, after := Increment(rule, before, chunk), ApplyReport(rule, t, device, JobOutput(id, chunk));
    IncrementAdds(parse, before, chunk);
    Unraised(t.rows, id, p);
    assert Filtered(rule, t, JobOutput(id, chunk)) == p by { hide J.Stored, Passed; }
    CleanOutput(rule, t, device, id, chunk);
    GoesOn(rule, s, t, after, device, id, chunks, chunk);
    hide At;
  }

  lemma CleanOutput(rule: LineRule, t: Server, device: nat, id: nat, chunk: Str)
    requires !Raises(rule, t, JobOutput(id, chunk))
    ensures var p, after := Increment(rule, FedText(t.fed, id), chunk), ApplyReport(rule, t, device, JobOutput(id, chunk));
            && after.rows == Appended(t.rows, id, p.out) && after.fed == t.fed[id := FedText(t.fed, id) + chunk]
            && after.vault == t.vault + Entries(device, id, Storeds(p.found))
  {
    hide Fails, Increment, Entries, Storeds, Appended;
  }

  lemma GoesOn(rule: LineRule, s: Server, t: Server, after: Server, device: nat, id: nat, chunks: seq<Str>, chunk: Str)
    requires At(rule, s, t, device, id, chunks)
    requires var p := Increment(rule, Concat(chunks), chunk);
             && after.rows == Appended(t.rows, id, p.out) && after.fed == t.fed[id := Concat(chunks) + chunk]
             && after.vault == t.vault + Entries(device, id, p.found) && J.Encodable(p.out)
             && Emitted(rule, Concat(chunks)).found + p.found == Emitted(rule, Concat(chunks) + chunk).found
    ensures At(rule, s, after, device, id, chunks + [chunk])
  {
    hide Concat, Emitted, J.Encodable, Entries, Increment, J.Stored, Appended;
    var p := Increment(rule, Concat(chunks), chunk);
    ConcatSnoc(chunks, chunk);
    assert (chunks + [chunk])[..|chunks|] == chunks;
    assert Passed(rule, chunks + [chunk]) == Passed(rule, chunks) + [p.out];
    AppendedRow(t.rows, id, t.rows[id], Passed(rule, chunks), p.out);
    EntriesJoin(device, id, Emitted(rule, Concat(chunks)).found, p.found);
    var row := s.rows[id].(status := J.Running, output := J.Stored(Passed(rule, chunks)));
    var row' := row.(output := J.Stored(Passed(rule, chunks + [chunk])));
    SetTwice(s.rows, id, row, row');
    FedAgain(t.fed, id, Concat(chunks) + chunk);
    ThreeParts(s.vault, Entries(device, id, Emitted(rule, Concat(chunks)).found), Entries(device, id, p.found));
    hide AppendRaises, Passed, Fails;
  }

  lemma SetTwice<T>(m: map<nat, T>, id: nat, a: T, b: T)
    ensures m[id := a][id := b] == m[id := b]
  {
  }

  lemma FedAgain(fed: map<nat, Str>, id: nat, text: Str)
    ensures fed[id := text] - {id} == fed - {id} && FedText(fed[id := text], id) == text
  {
  }

  lemma ThreeParts<T>(a: seq<T>, b: seq<T>, c: seq<T>)
    ensures a + b + c == a + (b + c)
  {
  }

  // The server after a report that raised: the first k chunks had been taken, and of the credentials in
  // `found` those ahead of the first that cannot be stored are in the vault.
  ghost predicate StoppedAt(rule: LineRule, s: Server, t: Server, device: nat, id: nat, chunks: seq<Str>, k: int, found: seq<Credential>) {
    && id in s.rows && 0 <= k <= |chunks|
    && t.rows == s.rows[id := s.rows[id].(status := J.Running, output := J.Stored(Passed(rule, chunks[..k])))]
    && t.vault == s.vault + Entries(device, id, Storeds(found))
    && t.fed - {id} == s.fed
  }

  // A report that raises has fed its filter and stored what it could.
  lemma RaisedReport(rule: LineRule, t: Server, device: nat, m: Report)
    requires Raises(rule, t, m) && !m.JobStarted?
    ensures var after := ApplyReport(rule, t, device, m);
            && after.rows == t.rows && after.fed - {m.id} == t.fed - {m.id}
            && after.vault == t.vault + Entries(device, m.id, Storeds(Filtered(rule, t, m).found))
  {
    hide Fails, Filtered, Entries, Storeds;
  }

  lemma StopsHere(rule: LineRule, s: Server, t: Server, after: Server, device: nat, id: nat, chunks: seq<Str>, more: seq<Str>,
                  stored: seq<Credential>, found: seq<Credential>)
    requires At(rule, s, t, device, id, chunks) && chunks <= more
    requires after.rows == t.rows && after.fed - {id} == t.fed - {id} && after.vault == t.vault + Entries(device, id, stored)
    requires Emitted(rule, Concat(chunks)).found + stored == Storeds(found)
    ensures StoppedAt(rule, s, after, device, id, more, |chunks|, found)
  {
    hide Concat, Emitted, Storeds, Entries, J.Stored, Passed;
    assert more[..|chunks|] == chunks;
    EntriesJoin(device, id, Emitted(rule, Concat(chunks)).found, stored);
  }

  lemma OutputRaises(parse: Parser, s: Server, t: Server, device: nat, id: nat, chunks: seq<Str>, chunk: Str)
    requires At(Sanitizer(parse), s, t, device, id, chunks)
    requires J.Encodable(Concat(chunks) + chunk)
    requires !StoreRaises(Emitted(Sanitizer(parse), Concat(chunks)).found)
    requires StoreRaises(Emitted(Sanitizer(parse), Concat(chunks) + chunk).found)
    ensures StoppedAt(Sanitizer(parse), s, ApplyReport(Sanitizer(parse), t, device, JobOutput(id, chunk)), device, id, chunks + [chunk],
                      |chunks|, Emitted(Sanitizer(parse), Concat(chunks) + chunk).found)
    ensures Raises(Sanitizer(parse), t, JobOutput(id, chunk))
  {
    hide Concat, Whole, Emitted, J.Encodable, StoreRaises, Storeds, Entries, Increment, AppendRaises, ApplyReport, StoppedAt;
    var rule, before := Sanitizer(parse), Concat(chunks);
    var p, after := Increment(rule, before, chunk), ApplyReport(rule, t, device, JobOutput(id, chunk));
    IncrementAdds(parse, before, chunk);
    assert Filtered(rule, t, JobOutput(id, chunk)) == p by { hide J.Stored, Passed; }
    hide At;
    RaisedReport(rule, t, device, JobOutput(id, chunk));
    StopsHere(rule, s, t, after, device, id, chunks, chunks + [chunk], Storeds(p.found), Emitted(rule, before + chunk).found);
  }

  // What the log comes to, and the row with it.
  ghost predicate Logged(rule: LineRule, s: Server, t: Server, device: nat, id: nat, chunks: seq<Str>, word: string, exitCode: Option<int>) {
    && id in s.rows
    && t.rows == s.rows[id := s.rows[id].(status := J.ReportedStatus(word), exitCode := exitCode, output := J.Stored(Said(rule, chunks)))]
    && t.vault == s.vault + Entries(device, id, Whole(rule, Concat(chunks)).found)
    && t.fed == s.fed
  }

  lemma ResultArrives(parse: Parser, s: Server, t: Server, device: nat, id: nat, chunks: seq<Str>, word: string, exitCode: Option<int>)
    requires At(Sanitizer(parse), s, t, device, id, chunks)
    requires J.Encodable(Concat(chunks)) && !StoreRaises(Emitted(Sanitizer(parse), Concat(chunks)).found)
    requires !StoreRaises(Whole(Sanitizer(parse), Concat(chunks)).found)
    ensures Logged(Sanitizer(parse), s, ApplyReport(Sanitizer(parse), t, device, JobResult(id, word, exitCode)), device, id, chunks, word, exitCode)
    ensures !Raises(Sanitizer(parse), t, JobResult(id, word, exitCode))
  {
    hide Concat, Whole, Emitted, J.Encodable, StoreRaises, Storeds, Entries, Remainder, J.Stored, Fails, Appended, Passed, J.ReportedStatus;
    var rule := Sanitizer(parse);
    var p := Remainder(rule, Concat(chunks));
    RemainderAdds(parse, Concat(chunks));
    Unraised(t.rows, id, p);
    AppendedRow(t.rows, id, t.rows[id], Passed(rule, chunks), p.out);
    EntriesJoin(device, id, Emitted(rule, Concat(chunks)).found, p.found);
  }

  lemma ResultRaises(parse: Parser, s: Server, t: Server, device: nat, id: nat, chunks: seq<Str>, word: string, exitCode: Option<int>)
    requires At(Sanitizer(parse), s, t, device, id, chunks)
    requires J.Encodable(Concat(chunks)) && !StoreRaises(Emitted(Sanitizer(parse), Concat(chunks)).found)
    requires StoreRaises(Whole(Sanitizer(parse), Concat(chunks)).found)
    ensures StoppedAt(Sanitizer(parse), s, ApplyReport(Sanitizer(parse), t, device, JobResult(id, word, exitCode)), device, id, chunks,
                      |chunks|, Whole(Sanitizer(parse), Concat(chunks)).found)
    ensures Raises(Sanitizer(parse), t, JobResult(id, word, exitCode))
  {
    hide Concat, Whole, Emitted, J.Encodable, StoreRaises, Storeds, Entries, Remainder, AppendRaises, ApplyReport, StoppedAt;
    var rule, m := Sanitizer(parse), JobResult(id, word, exitCode);
    var p, after := Remainder(rule, Concat(chunks)), ApplyReport(rule, t, device, JobResult(id, word, exitCode));
    RemainderAdds(parse, Concat(chunks));
    assert Filtered(rule, t, m) == p by { hide J.Stored, Passed; }
    hide At;
    RaisedReport(rule, t, device, m);
    StopsHere(rule, s, t, after, device, id, chunks, chunks, Storeds(p.found), Whole(rule, Concat(chunks)).found);
  }

  // ---- on its socket -------------------------------------------------------------------------

  // What a report comes to in one piece: what the gate and its branch say, and the socket
  // goes with it if it raises.
  function InOnePiece(rule: LineRule, w: I.World, c: nat, m: Report): I.World
    requires c in w.conns
  {
    var k := w.conns[c];
    var after := I.With(w.(server := ApplyReport(rule, w.server, k.device, m)), c,
                        k.(owned := OwnedAfter(w.server.rows, k.device, k.owned, m)));
    if !Allowed(w.server.rows, k.device, k.owned, m.id) then w
    else if Raises(rule, w.server, m) then I.Leave(after, c)
    else after
  }

  lemma PassedIsDone(rule: LineRule, w: I.World, c: nat, m: Report)
    requires I.Listens(w, c) && Allowed(w.server.rows, w.conns[c].device, w.conns[c].owned, m.id)
    ensures I.Step(rule, I.Passed(rule, w, c, m), I.Done(c)) == InOnePiece(rule, w, c, m)
  {
    hide Filtered, Effect, Fails, Fed, Allowed;
    var v := I.Passed(rule, w, c, m);
    assert Fed(w.server, m).rows == w.server.rows by { FedLeavesRows(w.server, m); }
    assert v.conns[c].hand == I.Doing(m, Filtered(rule, w.server, m));
    assert I.Finished(v, c).server == ApplyReport(rule, w.server, w.conns[c].device, m);
    assert I.EndsBadly(v, c) == Raises(rule, w.server, m);
    assert v.conns - {c} == w.conns - {c};
    assert v.conns[c := v.conns[c].(hand := I.Idle)] == w.conns[c := v.conns[c].(hand := I.Idle)];
    if Raises(rule, w.server, m) {
      assert w.conns[c := v.conns[c].(hand := I.Idle)] - {c} == w.conns - {c};
    }
  }

  lemma FedLeavesRows(s: Server, m: Report)
    ensures Fed(s, m).rows == s.rows
  {
  }

  // The lookup finds the job its own, or the report is refused.
  lemma LookedUpThenPassed(rule: LineRule, w: I.World, c: nat, m: Report)
    requires I.Listens(w, c) && m.id !in w.conns[c].owned
    ensures var two := I.Step(rule, I.Step(rule, w, I.Received(c, m)), I.LookedUp(c));
            I.Step(rule, two, I.Resumed(c)) ==
              if I.IsOwn(w.server.rows, m.id, w.conns[c].device) then I.Passed(rule, w, c, m) else w
  {
    hide Filtered, Fed;
    var k := w.conns[c];
    var asked := k.(hand := I.Answered(m, I.IsOwn(w.server.rows, m.id, k.device)));
    var two := I.Step(rule, I.Step(rule, w, I.Received(c, m)), I.LookedUp(c));
    assert w.conns[c := k.(hand := I.Looking(m))][c := asked] == w.conns[c := asked];
    assert two == I.With(w, c, asked);
    if asked.hand.mine {
      var after := I.Passed(rule, w, c, m).conns[c];
      assert w.conns[c := asked][c := after] == w.conns[c := after];
    } else {
      assert w.conns[c := asked][c := k] == w.conns;
    }
  }

  lemma OneExchange(rule: LineRule, w: I.World, c: nat, m: Report)
    requires I.Listens(w, c)
    ensures I.Run(rule, w, Exchange(c, m)) == InOnePiece(rule, w, c, m)
  {
    FourSteps(rule, w, I.Received(c, m), I.LookedUp(c), I.Resumed(c), I.Done(c));
    var k := w.conns[c];
    if m.id in k.owned {
      PassedIsDone(rule, w, c, m);
      assert I.Step(rule, w, I.Received(c, m)) == I.Passed(rule, w, c, m);
      assert I.Passed(rule, w, c, m).conns[c].hand.Doing?;
      hide I.Run, Filtered, Fed, InOnePiece;
    } else {
      LookedUpThenPassed(rule, w, c, m);
      if I.IsOwn(w.server.rows, m.id, k.device) { PassedIsDone(rule, w, c, m); }
      hide I.Run, Filtered, Fed, I.Passed;
    }
  }

  lemma FourSteps(rule: LineRule, w: I.World, e1: I.Event, e2: I.Event, e3: I.Event, e4: I.Event)
    ensures I.Run(rule, w, [e1, e2, e3, e4]) == I.Step(rule, I.Step(rule, I.Step(rule, I.Step(rule, w, e1), e2), e3), e4)
  {
    hide I.Step, I.Run;
    assert [e1] + [e2, e3, e4] == [e1, e2, e3, e4] && [e2] + [e3, e4] == [e2, e3, e4] && [e3] + [e4] == [e3, e4] && [e4] + [] == [e4];
    var one := I.Step(rule, w, e1);
    var two := I.Step(rule, one, e2);
    var three := I.Step(rule, two, e3);
    I.FirstStep(rule, w, e1, [e2, e3, e4]);
    I.FirstStep(rule, one, e2, [e3, e4]);
    I.FirstStep(rule, two, e3, [e4]);
    I.FirstStep(rule, three, e4, []);
    assert I.Run(rule, I.Step(rule, three, e4), []) == I.Step(rule, three, e4) by { NothingRun(rule, I.Step(rule, three, e4)); }
  }

  lemma NothingRun(rule: LineRule, w: I.World)
    ensures I.Run(rule, w, []) == w
  {
  }

  lemma NobodyListens(rule: LineRule, w: I.World, c: nat, m: Report)
    requires c !in w.conns
    ensures I.Run(rule, w, Exchange(c, m)) == w
  {
    FourSteps(rule, w, I.Received(c, m), I.LookedUp(c), I.Resumed(c), I.Done(c));
    hide I.Run;
  }

  // A job nothing has been reported of.
  ghost predicate IsNew(s: Server, device: nat, id: nat) {
    id in s.rows && s.rows[id].device == device && s.rows[id].status == J.Queued && s.rows[id].output == [] && id !in s.fed
  }

  // The socket is as it was, but for the job it has cached.
  ghost predicate StillThere(w: I.World, t: I.World, c: nat, id: nat) {
    c in w.conns && t == I.With(w.(server := t.server), c, w.conns[c].(owned := w.conns[c].owned + {id}))
  }

  ghost predicate IsGone(w: I.World, t: I.World, c: nat) { t == I.Leave(w.(server := t.server), c) }

  lemma StillAllowed(rule: LineRule, s: Server, t: Server, device: nat, id: nat, chunks: seq<Str>)
    requires IsNew(s, device, id) && At(rule, s, t, device, id, chunks)
    ensures id in t.rows && t.rows[id].device == device
  {
  }

  lemma Starts(rule: LineRule, s: Server, device: nat, id: nat)
    requires IsNew(s, device, id)
    ensures At(rule, s, ApplyReport(rule, s, device, JobStarted(id)), device, id, []) && !Raises(rule, s, JobStarted(id))
  {
    hide Run, Shown;
    NothingEmitted(rule);
    assert J.Stored([]) == [] by { NoneStored(); }
    assert s.fed - {id} == s.fed;
  }

  lemma NoneStored()
    ensures J.Stored([]) == []
  {
  }

  // The next message on the same socket.
  lemma NextArrives(rule: LineRule, w: I.World, t: I.World, c: nat, id: nat, m: Report)
    requires I.Listens(w, c) && StillThere(w, t, c, id) && m.id == id && !m.JobStarted?
    ensures var after := I.Run(rule, t, Exchange(c, m));
            && after.server == ApplyReport(rule, t.server, w.conns[c].device, m)
            && (if Raises(rule, t.server, m) then IsGone(w, after, c)
                else if m.JobResult? then after == I.With(w.(server := after.server), c, w.conns[c].(owned := w.conns[c].owned - {id}))
                else StillThere(w, after, c, id))
  {
    var k := w.conns[c];
    assert I.Listens(t, c) && t.conns[c] == k.(owned := k.owned + {id});
    OneExchange(rule, t, c, m);
    hide I.Run, ApplyReport, Raises, Exchange, I.Listens;
    assert OwnedAfter(t.server.rows, k.device, k.owned + {id}, m) == if m.JobResult? then k.owned - {id} else k.owned + {id};
    var owned := if m.JobResult? then k.owned - {id} else k.owned + {id};
    SameAsBefore(w, t, c, id, owned, ApplyReport(rule, t.server, k.device, m));
    hide OwnedAfter, IsGone, StillThere, I.With, I.Leave;
  }

  lemma SameAsBefore(w: I.World, t: I.World, c: nat, id: nat, owned: set<nat>, s: Server)
    requires StillThere(w, t, c, id)
    ensures var after := I.With(t.(server := s), c, t.conns[c].(owned := owned));
            && after == I.With(w.(server := s), c, w.conns[c].(owned := owned))
            && IsGone(w, I.Leave(after, c), c)
            && (owned == w.conns[c].owned + {id} ==> StillThere(w, after, c, id))
  {
    var k := w.conns[c].(owned := owned);
    assert t.conns[c := k] == w.conns[c := k];
    assert w.conns[c := k] - {c} == w.conns - {c};
  }

  lemma StartArrives(rule: LineRule, w: I.World, c: nat, id: nat)
    requires I.Listens(w, c) && IsNew(w.server, w.conns[c].device, id)
    ensures var after := I.Run(rule, w, Exchange(c, JobStarted(id)));
            StillThere(w, after, c, id) && At(rule, w.server, after.server, w.conns[c].device, id, [])
  {
    OneExchange(rule, w, c, JobStarted(id));
    Starts(rule, w.server, w.conns[c].device, id);
    hide I.Run, At, ApplyReport, Raises, Exchange;
  }

  // The work of a job: either everything has been taken in, or the socket went with the first
  // chunk whose credentials cannot be stored, and the log has the chunks before it.
  ghost predicate Worked(rule: LineRule, w: I.World, t: I.World, c: nat, id: nat, chunks: seq<Str>) {
    c in w.conns &&
    var device, found := w.conns[c].device, Emitted(rule, Concat(chunks)).found;
    if !StoreRaises(found) then StillThere(w, t, c, id) && At(rule, w.server, t.server, device, id, chunks)
    else IsGone(w, t, c) && exists k :: IsBreak(rule, chunks, k) && StoppedAt(rule, w.server, t.server, device, id, chunks, k, found)
  }

  // Chunk k is the first that cannot be taken in.
  ghost predicate IsBreak(rule: LineRule, chunks: seq<Str>, k: int) {
    && 0 <= k < |chunks|
    && !StoreRaises(Emitted(rule, Concat(chunks[..k])).found) && StoreRaises(Emitted(rule, Concat(chunks[..k + 1])).found)
  }

  lemma BreakStays(rule: LineRule, chunks: seq<Str>, chunk: Str, k: int)
    requires IsBreak(rule, chunks, k)
    ensures IsBreak(rule, chunks + [chunk], k) && (chunks + [chunk])[..k] == chunks[..k]
  {
    hide Emitted, StoreRaises;
    assert (chunks + [chunk])[..k] == chunks[..k] && (chunks + [chunk])[..k + 1] == chunks[..k + 1];
  }

  lemma WorkStep(parse: Parser, w: I.World, t: I.World, c: nat, id: nat, chunks: seq<Str>, chunk: Str)
    requires I.Listens(w, c) && IsNew(w.server, w.conns[c].device, id) && J.Encodable(Concat(chunks) + chunk)
    requires Worked(Sanitizer(parse), w, t, c, id, chunks)
    ensures Worked(Sanitizer(parse), w, I.Run(Sanitizer(parse), t, Exchange(c, JobOutput(id, chunk))), c, id, chunks + [chunk])
  {
    hide Concat, Emitted, J.Encodable, StoreRaises, Storeds, At, StoppedAt, IsBreak, I.Run, Exchange, ApplyReport, Raises, StillThere;
    var rule, device, before := Sanitizer(parse), w.conns[c].device, Concat(chunks);
    var m := JobOutput(id, chunk);
    ConcatSnoc(chunks, chunk);
    NothingIsTakenBack(parse, before, chunk);
    var a, b := Emitted(rule, before).found, Emitted(rule, before + chunk).found;
    if StoreRaises(a) {
      assert c !in t.conns;
      NobodyListens(rule, t, c, m);
      RaisesInPrefix(a, b);
      var k :| IsBreak(rule, chunks, k) && StoppedAt(rule, w.server, t.server, device, id, chunks, k, a);
      BreakStays(rule, chunks, chunk, k);
      SameStop(rule, w.server, t.server, device, id, chunks, chunks + [chunk], k, a, b);
    } else {
      NextArrives(rule, w, t, c, id, m);
      if StoreRaises(b) {
        OutputRaises(parse, w.server, t.server, device, id, chunks, chunk);
        BreaksHere(rule, chunks, chunk);
      } else {
        OutputArrives(parse, w.server, t.server, device, id, chunks, chunk);
      }
    }
  }

  lemma SameStop(rule: LineRule, s: Server, t: Server, device: nat, id: nat, chunks: seq<Str>, more: seq<Str>, k: int,
                 a: seq<Credential>, b: seq<Credential>)
    requires StoppedAt(rule, s, t, device, id, chunks, k, a) && Storeds(a) == Storeds(b) && chunks <= more
    ensures StoppedAt(rule, s, t, device, id, more, k, b)
  {
    assert more[..k] == chunks[..k];
    hide Passed, Storeds;
  }

  lemma BreaksHere(rule: LineRule, chunks: seq<Str>, chunk: Str)
    requires !StoreRaises(Emitted(rule, Concat(chunks)).found) && StoreRaises(Emitted(rule, Concat(chunks + [chunk])).found)
    ensures IsBreak(rule, chunks + [chunk], |chunks|) && (chunks + [chunk])[..|chunks|] == chunks
  {
    hide Emitted, StoreRaises, Concat;
    var all := chunks + [chunk];
    assert all[..|chunks|] == chunks && all[..|chunks| + 1] == all;
  }

  lemma {:induction false} WorkArrives(parse: Parser, w: I.World, c: nat, id: nat, said: seq<Outbox.Msg>)
    requires I.Listens(w, c) && IsNew(w.server, w.conns[c].device, id)
    requires Outbox.Spoke(said, Outbox.Working) && J.Encodable(Concat(Chunks(said)))
    ensures Worked(Sanitizer(parse), w, Delivered(Sanitizer(parse), w, c, id, said), c, id, Chunks(said))
    decreases |said|
  {
    hide Worked, Concat, J.Encodable, I.Run, Exchange, IsNew;
    var rule := Sanitizer(parse);
    var front := said[..|said| - 1];
    if |said| == 1 {
      assert front == [] && Chunks(front) == [] && Delivered(rule, w, c, id, front) == w;
      assert AsReport(said[0], id) == JobStarted(id) && Chunks(said) == [];
      StartArrives(rule, w, c, id);
      NothingWorked(rule, w, Delivered(rule, w, c, id, said), c, id);
    } else {
      var chunk := said[|said| - 1].chunk;
      ConcatSnoc(Chunks(front), chunk);
      EncodableParts(Concat(Chunks(front)), chunk);
      WorkArrives(parse, w, c, id, front);
      WorkStep(parse, w, Delivered(rule, w, c, id, front), c, id, Chunks(front), chunk);
    }
  }

  lemma NothingWorked(rule: LineRule, w: I.World, t: I.World, c: nat, id: nat)
    requires StillThere(w, t, c, id) && At(rule, w.server, t.server, w.conns[c].device, id, [])
    ensures Worked(rule, w, t, c, id, [])
  {
    hide At, Run, Shown;
    NothingEmitted(rule);
  }

  // ---- a whole job ---------------------------------------------------------------------------

  // What the log has when the socket goes: what was passed on before the first chunk that
  // cannot be taken in, or before the end of the job if it is the last line that cannot.
  ghost predicate LastTaken(rule: LineRule, chunks: seq<Str>, k: int) {
    IsBreak(rule, chunks, k) || (k == |chunks| && !StoreRaises(Emitted(rule, Concat(chunks)).found))
  }

  // A whole job: once everything its goroutine says has been sent to the server, in whatever
  // chunks, the row has the status, the exit code and, up to the cap, the text of the output
  // read line by line; the vault has gained the credentials in it; nothing is held, and no
  // other job has changed. That is so exactly if each of these credentials can be stored. If
  // one cannot, those before it are stored, the socket is gone, and the row is left running.
  lemma LogOfAJob(parse: Parser, w: I.World, c: nat, id: nat, said: seq<Outbox.Msg>)
    requires I.Listens(w, c) && IsNew(w.server, w.conns[c].device, id)
    requires Outbox.Spoke(said, Outbox.Ended) && J.Encodable(Concat(Chunks(said)))
    ensures var rule, device, end := Sanitizer(parse), w.conns[c].device, said[|said| - 1];
            var t, found := Delivered(rule, w, c, id, said), Whole(rule, Concat(Chunks(said))).found;
            if !StoreRaises(found) then
              && Logged(rule, w.server, t.server, device, id, Chunks(said), end.word, end.exitCode)
              && t == I.With(w.(server := t.server), c, w.conns[c].(owned := w.conns[c].owned - {id}))
            else
              && IsGone(w, t, c)
              && exists k :: LastTaken(rule, Chunks(said), k) && StoppedAt(rule, w.server, t.server, device, id, Chunks(said), k, found)
  {
    hide At, Concat, Whole, Emitted, J.Encodable, StoreRaises, Storeds, ApplyReport, Raises, Logged, StoppedAt, Said, I.Run, Exchange, StillThere, IsNew;
    var rule, front, end := Sanitizer(parse), said[..|said| - 1], said[|said| - 1];
    var chunks, device, m := Chunks(front), w.conns[c].device, AsReport(end, id);
    assert Chunks(said) == chunks;
    WorkArrives(parse, w, c, id, front);
    var t := Delivered(rule, w, c, id, front);
    NothingIsTakenBack(parse, Concat(chunks), []);
    var a, b := Emitted(rule, Concat(chunks)).found, Whole(rule, Concat(chunks)).found;
    RaisesInPrefix(a, b);
    if StoreRaises(a) {
      assert c !in t.conns;
      NobodyListens(rule, t, c, m);
      var k :| IsBreak(rule, chunks, k) && StoppedAt(rule, w.server, t.server, device, id, chunks, k, a);
      SameStop(rule, w.server, t.server, device, id, chunks, chunks, k, a, b);
      assert LastTaken(rule, chunks, k);
    } else {
      NextArrives(rule, w, t, c, id, m);
      if StoreRaises(b) {
        ResultRaises(parse, w.server, t.server, device, id, chunks, end.word, end.exitCode);
        assert chunks[..|chunks|] == chunks && LastTaken(rule, chunks, |chunks|);
      } else {
        ResultArrives(parse, w.server, t.server, device, id, chunks, end.word, end.exitCode);
      }
    }
  }

  // In particular nothing is cut from a log that fits.
  lemma ShortLogIsWhole(parse: Parser, chunks: seq<Str>)
    ensures var w := Whole(Sanitizer(parse), Concat(chunks)).out;
            J.ByteLen(w) < J.MAX_OUTPUT_BYTES ==> J.Stored(Said(Sanitizer(parse), chunks)) == w
  {
    hide J.ByteLen, J.Cut, Concat, Whole, Passed;
    PassedJoins(parse, chunks);
    ShortIsWhole(Said(Sanitizer(parse), chunks));
  }

  lemma ShortIsWhole(outs: seq<Str>)
    ensures J.ByteLen(Concat(outs)) < J.MAX_OUTPUT_BYTES ==> J.Stored(outs) == Concat(outs)
  {
    hide J.ByteLen, J.Cut, Concat;
    J.FillFacts(outs);
    J.CutIsLongest(Concat(outs), J.MAX_OUTPUT_BYTES);
    if J.ByteLen(Concat(outs)) < J.MAX_OUTPUT_BYTES { assert J.Stored(outs) == Concat(outs) + []; }
  }

  // ---- what becomes of it --------------------------------------------------------------------

  // No handler is busy with the job.
  ghost predicate NobodyOn(w: I.World, id: nat) { forall c :: c in w.conns ==> I.About(w.conns[c].hand) != Some(id) }

  ghost predicate IsSwept(es: seq<I.Event>, row: J.Job) {
    exists i :: 0 <= i < |es| && es[i].Sweep? && J.IsStale(row, es[i].cutoff, es[i].patchCutoff)
  }

  // A running row after some steps in which nothing is reported of it.
  function Left(row: J.Job, swept: bool): J.Job { if swept then row.(status := J.Timeout) else row }

  lemma UnreportedStep(rule: LineRule, w: I.World, e: I.Event, id: nat)
    requires I.Inv(w) && id in w.server.rows && w.server.rows[id].status in {J.Running, J.Timeout} && NobodyOn(w, id)
    requires !(e.Received? && e.m.id == id)
    ensures var row, after := w.server.rows[id], I.Step(rule, w, e).server.rows;
            && NobodyOn(I.Step(rule, w, e), id)
            && (id in after <==> e != I.DeleteJobs(row.device))
            && (id in after ==> after[id] == Left(row, e.Sweep? && J.IsStale(row, e.cutoff, e.patchCutoff)))
  {
    UnreportedHands(rule, w, e, id);
    hide Filtered, Fails, I.Holds;
    if e.Done? && e.c in w.conns && w.conns[e.c].hand.Doing? {
      var k := w.conns[e.c];
      I.EffectOnRows(w.server, k.device, k.hand.m, k.hand.p);
      I.RowsLikeMeans(w.server.rows, Effect(w.server, k.device, k.hand.m, k.hand.p).rows, k.hand.m.id);
      assert I.Step(rule, w, e).server == Effect(w.server, k.device, k.hand.m, k.hand.p);
      hide Effect, I.RowsLike;
    } else {
      hide Effect;
    }
  }

  lemma UnreportedHands(rule: LineRule, w: I.World, e: I.Event, id: nat)
    requires NobodyOn(w, id) && !(e.Received? && e.m.id == id)
    ensures NobodyOn(I.Step(rule, w, e), id)
  {
    hide Filtered, Fails, Effect, Fed, SweptServer, ServerWithout, OnRow, I.IsOwn;
  }

  // Nothing but the sweep ends such a row, and nothing but the deletion of its device's jobs
  // takes it away: it stays running until then.
  lemma {:induction false} OnlyTheSweepEnds(rule: LineRule, w: I.World, es: seq<I.Event>, id: nat)
    requires I.Inv(w) && id in w.server.rows && w.server.rows[id].status in {J.Running, J.Timeout} && NobodyOn(w, id)
    requires forall e :: e in es ==> !(e.Received? && e.m.id == id)
    ensures var row, after := w.server.rows[id], I.Run(rule, w, es).server.rows;
            && (id in after <==> I.DeleteJobs(row.device) !in es)
            && (id in after ==> after[id] == Left(row, IsSwept(es, row)))
    decreases |es|
  {
    hide I.Inv, I.Step, NobodyOn, J.IsStale;
    if es != [] {
      var e, w', row := es[0], I.Step(rule, w, es[0]), w.server.rows[id];
      I.StepKeepsInv(rule, w, e);
      UnreportedStep(rule, w, e, id);
      if id in w'.server.rows {
        OnlyTheSweepEnds(rule, w', es[1..], id);
        SweptNowOrLater(es, row);
        assert !IsSwept(es[1..], row.(status := J.Timeout)) by { NotTwice(es[1..], row); }
      } else {
        HasOwner(w, id);
        I.OwnersStay(rule, w, e);
        I.GoneForGood(rule, w', es[1..], id);
      }
    }
  }

  lemma HasOwner(w: I.World, id: nat)
    requires I.Inv(w) && id in w.server.rows
    ensures id in w.owners
  {
  }

  lemma SweptNowOrLater(es: seq<I.Event>, row: J.Job)
    requires es != []
    ensures IsSwept(es, row) <==> (es[0].Sweep? && J.IsStale(row, es[0].cutoff, es[0].patchCutoff)) || IsSwept(es[1..], row)
  {
    hide J.IsStale;
    if i :| 0 <= i < |es[1..]| && es[1..][i].Sweep? && J.IsStale(row, es[1..][i].cutoff, es[1..][i].patchCutoff) {
      assert es[i + 1] == es[1..][i];
    }
    if i :| 0 <= i < |es| && es[i].Sweep? && J.IsStale(row, es[i].cutoff, es[i].patchCutoff) {
      if i > 0 { assert es[1..][i - 1] == es[i]; }
    }
  }

  lemma NotTwice(es: seq<I.Event>, row: J.Job)
    ensures !IsSwept(es, row.(status := J.Timeout))
  {
  }
}
