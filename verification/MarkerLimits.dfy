// Payloads of any size and with any keys: which marker lines are read, and what is cut.
module MarkerLimits {
  import opened Text
  import opened Wrappers
  import opened Json
  import opened SecretLines
  import opened LineVerdicts
  import opened Marker

  // The fields as stored: trimmed, split pairs merged, cut to their limits.
  function Kept(c: Credential): Credential {
    Credential(Take(MergePairs(c.title), MAX_LABEL), Take(MergePairs(c.secret), MAX_SECRET),
               Take(MergePairs(c.username), MAX_USERNAME), Take(MergePairs(c.notes), MAX_NOTES))
  }

  ghost predicate Fits(s: Str, limit: nat) { !HasSplitPair(s) && |s| <= limit }

  // A field survives exactly if it holds no split pair and keeps its limit.
  lemma FieldSurvivesIff(s: Str, limit: nat)
    ensures Take(MergePairs(s), limit) == s <==> Fits(s, limit)
  {
    MergeIsIdentityIff(s);
  }

  lemma FieldsSurviveIff(c: Credential)
    ensures Kept(c) == c <==>
            Fits(c.title, MAX_LABEL) && Fits(c.secret, MAX_SECRET) && Fits(c.username, MAX_USERNAME) && Fits(c.notes, MAX_NOTES)
  {
    FieldSurvivesIff(c.title, MAX_LABEL);
    FieldSurvivesIff(c.secret, MAX_SECRET);
    FieldSurvivesIff(c.username, MAX_USERNAME);
    FieldSurvivesIff(c.notes, MAX_NOTES);
  }

  // ---- any keys -------------------------------------------------------------------------------

  // Merging gives a text of the basic plane only if there was nothing to merge.
  lemma {:induction false} MergedToPlain(s: Str)
    requires forall i :: 0 <= i < |MergePairs(s)| ==> MergePairs(s)[i] < 0x10000
    ensures MergePairs(s) == s
  {
    if s != [] {
      assert MergePairs(s)[0] < 0x10000;
      var rest := MergePairs(s[1..]);
      assert MergePairs(s) == [s[0]] + rest;
      forall i | 0 <= i < |rest|
        ensures rest[i] < 0x10000
      {
        assert rest[i] == MergePairs(s)[i + 1];
      }
      MergedToPlain(s[1..]);
    }
  }

  lemma {:induction false} GetOfMerged(ms: seq<Member>, key: Str)
    requires MergePairs(key) == key && forall i :: 0 <= i < |key| ==> key[i] < 0x10000
    ensures Get(Merged(ms), key) == MergePairs(Get(ms, key))
  {
    if ms != [] {
      var front := ms[..|ms| - 1];
      assert Merged(ms)[..|ms| - 1] == Merged(front);
      if MergePairs(ms[|ms| - 1].key) == key { MergedToPlain(ms[|ms| - 1].key); }
      GetOfMerged(front, key);
    }
  }

  lemma PlainKeys()
    ensures forall k :: k in {LABEL, SECRET, USERNAME, NOTES} ==> MergePairs(k) == k && forall i :: 0 <= i < |k| ==> k[i] < 0x10000
  {
    KeysDiffer();
  }

  lemma ReadFields(ms: seq<Member>)
    ensures CredentialOf(Merged(ms)) ==
            var c := FieldsOf(ms); if c.title == [] || c.secret == [] then None else Some(Kept(c))
  {
    PlainKeys();
    hide Get, Merged, Strip, MergePairs, LABEL, SECRET, USERNAME, NOTES;
    GetOfMerged(ms, LABEL);
    GetOfMerged(ms, SECRET);
    GetOfMerged(ms, USERNAME);
    GetOfMerged(ms, NOTES);
    StripMerge(Get(ms, LABEL));
    StripMerge(Get(ms, USERNAME));
    StripMerge(Get(ms, NOTES));
    MergeKeepsSomething(Strip(Get(ms, LABEL)));
    MergeKeepsSomething(Get(ms, SECRET));
  }

  lemma EmptyObject(other: OtherValues)
    ensures ReadObject(other, PrintObject([])) == Some(Merged([]))
  {
    var t := PrintObject([]);
    assert t == [OPEN_BRACE, CLOSE_BRACE] && t[1..] == [CLOSE_BRACE] && [CLOSE_BRACE][1..] == [];
    assert Merged([]) == [];
  }

  lemma AnyRaw(other: OtherValues, ms: seq<Member>)
    ensures ParseRaw(other, [SPACE] + PrintObject(ms) + [LF]) == CredentialOf(Merged(ms))
  {
    hide PrintMembers, ReadObject, CredentialOf;
    StripBetween([SPACE], PrintObject(ms), [LF]);
    if ms == [] { EmptyObject(other); } else { ObjectRoundTrip(other, ms); }
  }

  // ---- any length --------------------------------------------------------------------------------

  lemma LongMarkerLine(line: Str)
    requires |line| > MAX_LINE + 1 && line[..|MARKER|] == MARKER && line[|line| - 1] == LF && line[|line| - 2] != CR
    ensures TooLong(line)
  {
    MarkerFacts();
    var head := line[..MAX_LINE + 1];
    assert head[0] == MARKER[0] && head[0..|MARKER|] == MARKER;
    TooLongByHead(line);
  }

  lemma LineOfAny(ms: seq<Member>)
    ensures var line := MarkerLine(ms);
            && Lines(line) == [line] && line[|MARKER|..] == [SPACE] + PrintObject(ms) + [LF]
            && (|line| > MAX_LINE + 1 ==> TooLong(line))
            && (|line| <= MAX_LINE + 1 ==> IsMarkerLine(line) && Lead(line) == 0 && !TooLong(line))
  {
    hide PrintMembers, Lines, TooLong, IsMarkerLine, Lead, ContentLen;
    var line := MarkerLine(ms);
    PrintedIsPlainAscii(ms);
    MarkerLineShape(ms);
    OneLine(line, |line| - 1);
    assert line[|line| - 2] == CLOSE_BRACE;
    if |line| > MAX_LINE + 1 {
      LongMarkerLine(line);
    } else {
      ContentBeforeLf(line);
      ShortMarkerLine(line);
    }
  }

  lemma ContentBeforeLf(line: Str)
    requires line != [] && line[|line| - 1] == LF
    ensures ContentLen(line) <= |line| - 1
  {
  }

  // Whatever a script prints: a line over the limit leaves only the note about it, one without
  // a visible label or a secret the note about its format, and any other its credential, each
  // field cut to its limit.
  lemma AnyMarkerLine(other: OtherValues, ms: seq<Member>)
    ensures var line, c := MarkerLine(ms), FieldsOf(ms);
            Whole(Sanitizer(ParseMarker(other)), line) ==
              if |line| > MAX_LINE + 1 then Piece(NOTE_TOO_LONG, [])
              else if c.title == [] || c.secret == [] then Piece(NOTE_INVALID, [])
              else Piece(NoteStored(Kept(c).title), [Kept(c)])
  {
    hide MarkerLine, PrintObject, Lines, ParseRaw, NoteStored, CredentialOf, FieldsOf, LeadEnd, TooLongFrom, Kept;
    var line, rule := MarkerLine(ms), Sanitizer(ParseMarker(other));
    LineOfAny(ms);
    AnyRaw(other, ms);
    ReadFields(ms);
    assert ProcessAll(rule, [line][1..]) == Nothing;
    JoinLaws(rule(line), Nothing, Nothing);
  }
}
