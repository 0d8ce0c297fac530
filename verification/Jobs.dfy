// Job rows: their lifecycle and the output they collect.
module Jobs {
  import opened Text
  import opened Wrappers

  datatype Status = Queued | Running | Done | Failed | Timeout
  datatype Kind = Shell | Script | PatchInstall

  datatype Job = Job(device: nat, kind: Kind, status: Status, exitCode: Option<int>, output: Str, createdAt: int)

  type Table = map<nat, Job>

  const MAX_OUTPUT_BYTES: nat := 1_000_000
  const TRUNCATED: Str := Codes("\n…[gekürzt]")

  predicate Terminal(s: Status) { s in {Done, Failed, Timeout} }

  // The status word an agent reports; anything unknown counts as failed.
  function ReportedStatus(word: string): (s: Status)
    ensures Terminal(s)
  {
    if word == "done" then Done
    else if word == "timeout" then Timeout
    else Failed
  }

  // ---- text and its bytes --------------------------------------------------------------

  // A lone surrogate has no UTF-8 form: encoding a text that holds one raises.
  predicate Encodable(s: Str) { forall i :: 0 <= i < |s| ==> !(0xD800 <= s[i] <= 0xDFFF) }

  // Bytes of a character in UTF-8 (section 3 of RFC 3629).
  function Bytes(c: Code): (r: nat)
    ensures 1 <= r <= 4
  {
    if c < 0x80 then 1 else if c < 0x800 then 2 else if c < 0x10000 then 3 else 4
  }

  function ByteLen(s: Str): (r: nat)
    ensures r >= |s|
  {
    if s == [] then 0 else Bytes(s[0]) + ByteLen(s[1..])
  }

  // The first n bytes decoded again with errors ignored: the characters that fit whole.
  function Cut(s: Str, n: nat): (r: Str)
    ensures r <= s && ByteLen(r) <= n
  {
    if s == [] || Bytes(s[0]) > n then []
    else
      var r := Cut(s[1..], n - Bytes(s[0]));
      assert ([s[0]] + r)[1..] == r;
      [s[0]] + r
  }

  lemma {:induction false} ByteLenConcat(a: Str, b: Str)
    ensures ByteLen(a + b) == ByteLen(a) + ByteLen(b)
  {
    if a == [] {
      assert a + b == b;
    } else {
      assert (a + b)[1..] == a[1..] + b;
      ByteLenConcat(a[1..], b);
    }
  }

  // A text that fits is not cut, and what is cut off leaves less than a character's room.
  lemma {:induction false} CutIsLongest(s: Str, n: nat)
    ensures ByteLen(s) <= n <==> Cut(s, n) == s
    ensures ByteLen(s) > n ==> ByteLen(Cut(s, n)) + 3 >= n
  {
    if s != [] && Bytes(s[0]) <= n {
      CutIsLongest(s[1..], n - Bytes(s[0]));
      assert Cut(s, n)[1..] == Cut(s[1..], n - Bytes(s[0]));
      assert s == [s[0]] + s[1..];
    }
  }

  // Text behind the cut does not move it.
  lemma {:induction false} CutIgnoresTail(a: Str, b: Str, n: nat)
    requires ByteLen(a) >= n
    ensures Cut(a + b, n) == Cut(a, n)
  {
    if a == [] {
      assert a + b == b;
    } else {
      assert (a + b)[1..] == a[1..] + b;
      if Bytes(a[0]) <= n { CutIgnoresTail(a[1..], b, n - Bytes(a[0])); }
    }
  }

  // ---- one row ---------------------------------------------------------------------------

  function Start(j: Job): Job {
    if j.status == Queued then j.(status := Running) else j
  }

  function Append(j: Job, chunk: Str): Job {
    if chunk == [] || Terminal(j.status) || ByteLen(j.output) >= MAX_OUTPUT_BYTES || !Encodable(chunk) then j
    else
      var combined := j.output + chunk;
      j.(output := if ByteLen(combined) > MAX_OUTPUT_BYTES then Cut(combined, MAX_OUTPUT_BYTES) + TRUNCATED else combined)
  }

  function Finish(j: Job, status: Status, exitCode: Option<int>): Job {
    if Terminal(j.status) then j else j.(status := status, exitCode := exitCode)
  }

  function FailUndispatched(j: Job, reason: Str): Job {
    if j.status == Queued then j.(status := Failed, output := reason) else j
  }

  predicate IsStale(j: Job, cutoff: int, patchCutoff: int) {
    !Terminal(j.status) && j.createdAt < if j.kind == PatchInstall then patchCutoff else cutoff
  }

  function SweepRow(j: Job, cutoff: int, patchCutoff: int): Job {
    if IsStale(j, cutoff, patchCutoff) then j.(status := Timeout) else j
  }

  // ---- whole runs over one row -------------------------------------------------------------

  datatype Event =
    | Started
    | Output(chunk: Str)
    | Finished(status: Status, exitCode: Option<int>)
    | Undispatched(reason: Str)
    | Swept(cutoff: int, patchCutoff: int)

  function Apply(j: Job, e: Event): Job {
    match e
    case Started => Start(j)
    case Output(chunk) => Append(j, chunk)
    case Finished(status, exitCode) => Finish(j, status, exitCode)
    case Undispatched(reason) => FailUndispatched(j, reason)
    case Swept(cutoff, patchCutoff) => SweepRow(j, cutoff, patchCutoff)
  }

  function Run(j: Job, es: seq<Event>): Job
    decreases |es|
  {
    if es == [] then j else Run(Apply(j, es[0]), es[1..])
  }

  // done, failed and timeout are final, and everything about the row with them.
  lemma {:induction false} TerminalIsFrozen(j: Job, es: seq<Event>)
    requires Terminal(j.status)
    ensures Run(j, es) == j
    decreases |es|
  {
    if es != [] {
      TerminalIsFrozen(j, es[1..]);
    }
  }

  // ---- what the output column holds ----------------------------------------------------------

  // How the collected output relates to the cap: still below it, ending exactly on it, or
  // over it and marked as truncated.
  datatype Fill = Below | Full | Marked

  function FillOf(chunks: seq<Str>): Fill
    decreases |chunks|
  {
    if chunks == [] then Below
    else
      var before := FillOf(chunks[..|chunks| - 1]);
      if before != Below then before
      else
        var n := ByteLen(Concat(chunks));
        if n < MAX_OUTPUT_BYTES then Below else if n == MAX_OUTPUT_BYTES then Full else Marked
  }

  function Stored(chunks: seq<Str>): Str {
    Cut(Concat(chunks), MAX_OUTPUT_BYTES) + if FillOf(chunks) == Marked then TRUNCATED else []
  }

  lemma ByteLenOfEnd(s: Str, i: nat)
    requires i < |s|
    ensures ByteLen(s[i..]) == Bytes(s[i]) + ByteLen(s[i + 1..])
  {
    assert s[i..][1..] == s[i + 1..];
  }

  lemma TruncatedBytes()
    ensures ByteLen(TRUNCATED) == 14
  {
    var t := TRUNCATED;
    assert |t| == 11 && t[1] == 0x2026 && t[6] == 0xFC;
    assert forall i :: 0 <= i < 11 && i != 1 && i != 6 ==> t[i] < 0x80;
    assert t[11..] == [] && t[0..] == t && ByteLen([]) == 0;
    hide ByteLen;
    ByteLenOfEnd(t, 10);
    ByteLenOfEnd(t, 9);
    ByteLenOfEnd(t, 8);
    ByteLenOfEnd(t, 7);
    ByteLenOfEnd(t, 6);
    ByteLenOfEnd(t, 5);
    ByteLenOfEnd(t, 4);
    ByteLenOfEnd(t, 3);
    ByteLenOfEnd(t, 2);
    ByteLenOfEnd(t, 1);
    ByteLenOfEnd(t, 0);
  }

  lemma {:induction false} FillFacts(chunks: seq<Str>)
    ensures FillOf(chunks) == Below <==> ByteLen(Concat(chunks)) < MAX_OUTPUT_BYTES
    ensures FillOf(chunks) != Below ==> ByteLen(Stored(chunks)) >= MAX_OUTPUT_BYTES
    decreases |chunks|
  {
    if chunks != [] {
      var n := |chunks| - 1;
      var front := chunks[..n];
      FillFacts(front);
      assert chunks == front + [chunks[n]];
      ConcatSnoc(front, chunks[n]);
      var a, all := Concat(front), Concat(chunks);
      ByteLenConcat(a, chunks[n]);
      CutIsLongest(all, MAX_OUTPUT_BYTES);
      ByteLenConcat(Cut(all, MAX_OUTPUT_BYTES), if FillOf(chunks) == Marked then TRUNCATED else []);
      TruncatedBytes();
      if FillOf(front) != Below {
        CutIgnoresTail(a, chunks[n], MAX_OUTPUT_BYTES);
      }
    }
  }

  lemma NoBytes()
    ensures ByteLen([]) == 0
  {
  }

  // One more chunk on a row that holds what `front` came to.
  lemma AppendStep(row: Job, front: seq<Str>, last: Str)
    requires !Terminal(row.status) && row.output == Stored(front) && Encodable(last)
    ensures Append(row, last) == row.(output := Stored(front + [last]))
  {
    hide ByteLen, Cut, Concat, Encodable;
    var chunks := front + [last];
    var a, all := Concat(front), Concat(chunks);
    assert chunks[..|chunks| - 1] == front;
    ConcatSnoc(front, last);
    FillFacts(front);
    assert ByteLen([]) == 0 by { NoBytes(); }
    ByteLenConcat(a, last);
    CutIsLongest(a, MAX_OUTPUT_BYTES);
    CutIsLongest(all, MAX_OUTPUT_BYTES);
    if FillOf(front) == Below {
      assert row.output == a + [] == a;
      if last == [] { assert all == a; }
      assert Cut(all, MAX_OUTPUT_BYTES) + [] == Cut(all, MAX_OUTPUT_BYTES);
    } else {
      CutIgnoresTail(a, last, MAX_OUTPUT_BYTES);
    }
  }

  // The chunks a row takes in: those that arrive before it is final and can be encoded.
  function Accepted(j: Job, es: seq<Event>): seq<Str>
    decreases |es|
  {
    if es == [] then []
    else
      var rest := Accepted(Apply(j, es[0]), es[1..]);
      if es[0].Output? && !Terminal(j.status) && Encodable(es[0].chunk) then [es[0].chunk] + rest else rest
  }

  // Event k finds the job still queued and fails it undispatched.
  ghost predicate FailsAt(j: Job, es: seq<Event>, k: int) {
    0 <= k < |es| && es[k].Undispatched? && Run(j, es[..k]).status == Queued
  }

  // Over any run: unless the job fails undispatched, the output is, in closed form, the whole
  // characters of everything accepted that fit under the cap, and the note behind them if the
  // cap was crossed inside a chunk. If it does, the reason takes the place of whatever had
  // come in, and the row stays so.
  lemma OutputOfRun(j: Job, es: seq<Event>, before: seq<Str>)
    requires j.output == Stored(before)
    ensures (forall k :: !FailsAt(j, es, k)) ==> Run(j, es).output == Stored(before + Accepted(j, es))
    ensures forall k :: FailsAt(j, es, k) ==> Run(j, es) == Run(j, es[..k]).(status := Failed, output := es[k].reason)
  {
    hide Stored, Run, Accepted;
    if forall k :: !FailsAt(j, es, k) { OutputOfDispatched(j, es, before); }
    forall k | FailsAt(j, es, k)
      ensures Run(j, es) == Run(j, es[..k]).(status := Failed, output := es[k].reason)
    {
      FailureIsFinal(j, es, k);
    }
  }

  lemma {:induction false} OutputOfDispatched(j: Job, es: seq<Event>, before: seq<Str>)
    requires j.output == Stored(before)
    requires forall k :: !FailsAt(j, es, k)
    ensures Run(j, es).output == Stored(before + Accepted(j, es))
    decreases |es|
  {
    if es == [] {
      assert before + [] == before;
    } else {
      var e, next := es[0], Apply(j, es[0]);
      var took := e.Output? && !Terminal(j.status) && Encodable(e.chunk);
      var before' := if took then before + [e.chunk] else before;
      NotNow(j, es);
      if took { AppendStep(j, before, e.chunk); }
      forall k
        ensures !FailsAt(next, es[1..], k)
      {
        NotLater(j, es, k);
      }
      OutputOfDispatched(next, es[1..], before');
      assert before' + Accepted(next, es[1..]) == before + Accepted(j, es);
    }
  }

  lemma NotNow(j: Job, es: seq<Event>)
    requires es != [] && !FailsAt(j, es, 0)
    ensures es[0].Undispatched? ==> j.status != Queued
  {
    assert es[..0] == [];
  }

  lemma NotLater(j: Job, es: seq<Event>, k: int)
    requires es != [] && !FailsAt(j, es, k + 1)
    ensures !FailsAt(Apply(j, es[0]), es[1..], k)
  {
    if 0 <= k < |es| - 1 {
      assert es[..k + 1][0] == es[0] && es[..k + 1][1..] == es[1..][..k];
    }
  }

  lemma {:induction false} RunSplit(j: Job, es: seq<Event>, k: nat)
    requires k <= |es|
    ensures Run(j, es) == Run(Run(j, es[..k]), es[k..])
    decreases k
  {
    if k == 0 {
      assert es[..0] == [] && es[0..] == es;
    } else {
      assert es[..k][0] == es[0] && es[..k][1..] == es[1..][..k - 1] && es[k..] == es[1..][k - 1..];
      RunSplit(Apply(j, es[0]), es[1..], k - 1);
    }
  }

  lemma FailureIsFinal(j: Job, es: seq<Event>, k: int)
    requires FailsAt(j, es, k)
    ensures Run(j, es) == Run(j, es[..k]).(status := Failed, output := es[k].reason)
  {
    RunSplit(j, es, k);
    var now := Run(j, es[..k]);
    assert es[k..][0] == es[k] && es[k..][1..] == es[k + 1..];
    TerminalIsFrozen(Apply(now, es[k]), es[k + 1..]);
  }

  ghost predicate EndsOnCap(chunks: seq<Str>, k: nat) {
    k <= |chunks| && ByteLen(Concat(chunks[..k])) == MAX_OUTPUT_BYTES
  }

  // The note stands there exactly when more came than fits and no chunk ended on the cap:
  // after one that did, everything is dropped without a word.
  lemma {:induction false} MarkedIff(chunks: seq<Str>)
    ensures FillOf(chunks) == Marked <==>
            ByteLen(Concat(chunks)) > MAX_OUTPUT_BYTES && forall k :: !EndsOnCap(chunks, k)
    ensures FillOf(chunks) == Below ==>
              ByteLen(Concat(chunks)) < MAX_OUTPUT_BYTES && forall k :: !EndsOnCap(chunks, k)
    ensures FillOf(chunks) == Full ==> exists k :: EndsOnCap(chunks, k)
    decreases |chunks|
  {
    hide ByteLen, Concat, Cut, EndsOnCap;
    if chunks == [] {
      NothingOnCap();
    } else {
      var n := |chunks| - 1;
      var front := chunks[..n];
      MarkedIff(front);
      assert chunks == front + [chunks[n]];
      GrowsBy(front, chunks[n]);
      forall k: nat
        ensures EndsOnCap(chunks, k) <==> if k <= n then EndsOnCap(front, k) else k == n + 1 && ByteLen(Concat(chunks)) == MAX_OUTPUT_BYTES
      {
        OnCapOrBefore(chunks, k);
      }
      if FillOf(front) == Full {
        var k: nat :| EndsOnCap(front, k);
        OnCapOrBefore(chunks, k);
      } else {
        OnCapOrBefore(chunks, n + 1);
      }
    }
  }

  lemma NothingOnCap()
    ensures ByteLen(Concat([])) == 0 && forall k :: !EndsOnCap([], k)
  {
  }

  lemma GrowsBy(front: seq<Str>, last: Str)
    ensures ByteLen(Concat(front + [last])) >= ByteLen(Concat(front))
  {
    ConcatSnoc(front, last);
    ByteLenConcat(Concat(front), last);
  }

  lemma OnCapOrBefore(chunks: seq<Str>, k: nat)
    requires chunks != []
    ensures var n := |chunks| - 1;
            EndsOnCap(chunks, k) <==> if k <= n then EndsOnCap(chunks[..n], k) else k == n + 1 && ByteLen(Concat(chunks)) == MAX_OUTPUT_BYTES
    ensures EndsOnCap(chunks[..|chunks| - 1], k) ==> k < |chunks|
  {
    hide ByteLen, Concat;
    var n := |chunks| - 1;
    if k <= n { assert chunks[..k] == chunks[..n][..k]; }
    assert chunks[..n + 1] == chunks;
  }

  // A chunk that ends on the cap, and one more: that one is dropped without the note.
  lemma NoNoteBehindTheCap(device: nat, kind: Kind, now: int)
    ensures var full, more: Str := seq(1_000_000, _ => 'a' as int), [97];
            && ByteLen(Concat([full, more])) > 1_000_000
            && Run(Job(device, kind, Queued, None, [], now), [Output(full), Output(more)]).output == full
  {
    var full, more: Str := seq(MAX_OUTPUT_BYTES, _ => 'a' as int), [97];
    AsciiBytes(full);
    assert ByteLen(Concat([full, more])) == MAX_OUTPUT_BYTES + 1 by {
      assert [full, more] == [full] + [more] && [full] == [] + [full] && [] + full == full;
      ConcatSnoc([full], more);
      ConcatSnoc([], full);
      ByteLenConcat(full, more);
      AsciiBytes(more);
    }
    hide ByteLen, Cut;
    var j := Job(device, kind, Queued, None, [], now);
    NoBytes();
    assert j.output + full == full;
    assert Append(j, full) == j.(output := full);
    assert Append(j.(output := full), more) == j.(output := full);
    var es := [Output(full), Output(more)];
    assert es[1..] == [Output(more)] && [Output(more)][1..] == [];
    assert Run(j, es) == Run(Append(j, full), [Output(more)]);
    assert Run(j.(output := full), [Output(more)]) == Run(Append(j.(output := full), more), []);
  }

  lemma {:induction false} AsciiBytes(s: Str)
    requires forall i :: 0 <= i < |s| ==> s[i] < 0x80
    ensures ByteLen(s) == |s|
  {
    if s != [] { AsciiBytes(s[1..]); }
  }

  lemma StoredIsBounded(chunks: seq<Str>)
    ensures ByteLen(Stored(chunks)) <= MAX_OUTPUT_BYTES + 14
  {
    TruncatedBytes();
    ByteLenConcat(Cut(Concat(chunks), MAX_OUTPUT_BYTES), if FillOf(chunks) == Marked then TRUNCATED else []);
  }

  // The reason every caller gives for a job that could not be sent.
  const NOT_CONNECTED: Str := Codes("Gerät ist nicht verbunden")

  lemma {:induction false} AtMostFourEach(s: Str)
    ensures ByteLen(s) <= 4 * |s|
  {
    if s != [] { AtMostFourEach(s[1..]); }
  }

  // Over any run a row's output stays within the cap and the note, unless it is the reason of
  // an undispatched job; the reason there is stays within it too.
  lemma OutputIsBounded(j: Job, es: seq<Event>, before: seq<Str>)
    requires j.output == Stored(before)
    ensures ByteLen(Run(j, es).output) <= 1_000_014 || exists k :: FailsAt(j, es, k) && Run(j, es).output == es[k].reason
    ensures (forall i :: 0 <= i < |es| && es[i].Undispatched? ==> es[i].reason == NOT_CONNECTED) ==>
              ByteLen(Run(j, es).output) <= 1_000_014
  {
    OutputOfRun(j, es, before);
    StoredIsBounded(before + Accepted(j, es));
    AtMostFourEach(NOT_CONNECTED);
    hide Stored, Run, Accepted, ByteLen;
    if k :| FailsAt(j, es, k) { assert Run(j, es).output == es[k].reason; }
  }
}
