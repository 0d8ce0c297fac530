// The marker line itself: how a script prints one and what the server reads from it.
module Marker {
  import opened Text
  import opened Wrappers
  import opened Json
  import opened SecretLines

  const LABEL: Str := Codes("label")
  const SECRET: Str := Codes("secret")
  const USERNAME: Str := Codes("username")
  const NOTES: Str := Codes("notes")

  const MAX_LABEL: nat := 120
  const MAX_SECRET: nat := 4096
  const MAX_USERNAME: nat := 120
  const MAX_NOTES: nat := 500

  const OPEN_BRACE: Code := '{' as int
  const CLOSE_BRACE: Code := '}' as int
  const COLON: Code := ':' as int

  datatype Member = Member(key: Str, value: Str)

  // ---- printing --------------------------------------------------------------------------

  function PrintMember(m: Member): (r: Str)
    ensures |r| <= 12 * |m.key| + 12 * |m.value| + 5
  {
    Quote(m.key) + [COLON] + Quote(m.value)
  }

  function PrintMembers(ms: seq<Member>): Str {
    if ms == [] then []
    else if |ms| == 1 then PrintMember(ms[0])
    else PrintMember(ms[0]) + [COMMA] + PrintMembers(ms[1..])
  }

  function PrintObject(ms: seq<Member>): Str {
    [OPEN_BRACE] + PrintMembers(ms) + [CLOSE_BRACE]
  }

  function MarkerLine(ms: seq<Member>): Str {
    MARKER + [SPACE] + PrintObject(ms) + [LF]
  }

  // ---- reading ---------------------------------------------------------------------------

  function SkipBlanks(t: Str): (r: Str)
    ensures |r| <= |t|
  {
    if t != [] && t[0] in {SPACE, 0x09, LF, CR} then SkipBlanks(t[1..]) else t
  }

  // Reads a JSON value that is not a string and gives what str() makes of it. The results
  // hold whatever it does.
  type OtherValues = Str -> Option<Read<Str>>

  function ReadValue(other: OtherValues, t: Str): (r: Option<Read<Str>>)
    ensures r.Some? ==> |r.value.rest| < |t|
  {
    if t != [] && t[0] == QUOTE then ReadString(t[1..])
    else match other(t)
      case Some(v) => if |v.rest| < |t| then Some(v) else None
      case None => None
  }

  function ReadMember(other: OtherValues, t: Str): (r: Option<Read<Member>>)
    ensures r.Some? ==> |r.value.rest| < |t|
  {
    if t == [] || t[0] != QUOTE then None
    else match ReadString(t[1..])
      case None => None
      case Some(k) =>
        var t1 := SkipBlanks(k.rest);
        if t1 == [] || t1[0] != COLON then None
        else match ReadValue(other, SkipBlanks(t1[1..]))
          case None => None
          case Some(v) => Some(Read(Member(k.value, v.value), SkipBlanks(v.rest)))
  }

  function ReadMembers(other: OtherValues, t: Str): Option<Read<seq<Member>>>
    decreases |t|
  {
    match ReadMember(other, t)
    case None => None
    case Some(m) =>
      if m.rest == [] then None
      else if m.rest[0] == CLOSE_BRACE then Some(Read([m.value], m.rest[1..]))
      else if m.rest[0] != COMMA then None
      else match ReadMembers(other, SkipBlanks(m.rest[1..]))
        case None => None
        case Some(ms) => Some(Read([m.value] + ms.value, ms.rest))
  }

  // A JSON object with nothing but blanks around it; any other document is no use here.
  function ReadObject(other: OtherValues, text: Str): Option<seq<Member>> {
    var t := SkipBlanks(text);
    if t == [] || t[0] != OPEN_BRACE then None
    else
      var inner := SkipBlanks(t[1..]);
      if inner != [] && inner[0] == CLOSE_BRACE then
        if SkipBlanks(inner[1..]) == [] then Some([]) else None
      else match ReadMembers(other, inner)
        case None => None
        case Some(ms) => if SkipBlanks(ms.rest) == [] then Some(ms.value) else None
  }

  // dict.get(key, ""), where a repeated key has the last value given.
  function Get(ms: seq<Member>, key: Str): Str {
    if ms == [] then []
    else if ms[|ms| - 1].key == key then ms[|ms| - 1].value
    else Get(ms[..|ms| - 1], key)
  }

  function CredentialOf(ms: seq<Member>): Option<Credential> {
    var title := Strip(Get(ms, LABEL));
    var secret := Get(ms, SECRET);
    if title == [] || secret == [] then None
    else Some(Credential(Take(title, MAX_LABEL), Take(secret, MAX_SECRET),
                         Take(Strip(Get(ms, USERNAME)), MAX_USERNAME), Take(Strip(Get(ms, NOTES)), MAX_NOTES)))
  }

  function ParseRaw(other: OtherValues, raw: Str): Option<Credential> {
    match ReadObject(other, Strip(raw))
    case None => None
    case Some(ms) => CredentialOf(ms)
  }

  function ParseMarker(other: OtherValues): Parser { raw => ParseRaw(other, raw) }

  // ---- printing and reading ----------------------------------------------------------------

  function Merged(ms: seq<Member>): (r: seq<Member>)
    ensures |r| == |ms|
    ensures forall i :: 0 <= i < |ms| ==> r[i] == Member(MergePairs(ms[i].key), MergePairs(ms[i].value))
  {
    seq(|ms|, i requires 0 <= i < |ms| => Member(MergePairs(ms[i].key), MergePairs(ms[i].value)))
  }

  lemma MemberRoundTrip(other: OtherValues, m: Member, rest: Str)
    requires rest != [] && rest[0] in {COMMA, CLOSE_BRACE}
    ensures ReadMember(other, PrintMember(m) + rest) ==
            Some(Read(Member(MergePairs(m.key), MergePairs(m.value)), rest))
    ensures (PrintMember(m) + rest)[0] == QUOTE
  {
    hide Escape, ReadString;
    var afterKey := [COLON] + Quote(m.value) + rest;
    var t := PrintMember(m) + rest;
    assert t[0] == QUOTE && t[1..] == Escape(m.key) + [QUOTE] + afterKey;
    StringRoundTrip(m.key, afterKey);
    assert SkipBlanks(afterKey) == afterKey;
    var v := Quote(m.value) + rest;
    assert afterKey[1..] == v && SkipBlanks(v) == v;
    assert v[1..] == Escape(m.value) + [QUOTE] + rest;
    StringRoundTrip(m.value, rest);
    assert SkipBlanks(rest) == rest;
  }

  lemma {:induction false} MembersRoundTrip(other: OtherValues, ms: seq<Member>, rest: Str)
    requires ms != []
    ensures ReadMembers(other, PrintMembers(ms) + [CLOSE_BRACE] + rest) == Some(Read(Merged(ms), rest))
    ensures (PrintMembers(ms) + [CLOSE_BRACE] + rest)[0] == QUOTE
  {
    hide PrintMember, ReadMember;
    var t := PrintMembers(ms) + [CLOSE_BRACE] + rest;
    var m := ms[0];
    if |ms| == 1 {
      var more := [CLOSE_BRACE] + rest;
      assert t == PrintMember(m) + more;
      MemberRoundTrip(other, m, more);
      assert more[1..] == rest;
      assert Merged(ms) == [Member(MergePairs(m.key), MergePairs(m.value))];
    } else {
      var inner := PrintMembers(ms[1..]) + [CLOSE_BRACE] + rest;
      var more := [COMMA] + inner;
      assert t == PrintMember(m) + more;
      MemberRoundTrip(other, m, more);
      MembersRoundTrip(other, ms[1..], rest);
      assert more[1..] == inner && SkipBlanks(inner) == inner;
      assert Merged(ms) == [Member(MergePairs(m.key), MergePairs(m.value))] + Merged(ms[1..]);
    }
  }

  lemma ObjectRoundTrip(other: OtherValues, ms: seq<Member>)
    requires ms != []
    ensures ReadObject(other, PrintObject(ms)) == Some(Merged(ms))
  {
    hide PrintMembers, ReadMembers, Merged;
    var t := PrintObject(ms);
    var inner := PrintMembers(ms) + [CLOSE_BRACE] + [];
    assert t[1..] == inner;
    MembersRoundTrip(other, ms, []);
    assert SkipBlanks(t) == t && SkipBlanks(inner) == inner;
  }

  // ---- payloads ------------------------------------------------------------------------------

  function Limit(key: Str): nat {
    if key == LABEL then MAX_LABEL
    else if key == SECRET then MAX_SECRET
    else if key == USERNAME then MAX_USERNAME
    else MAX_NOTES
  }

  // What a script may print: fields within their limits, in any order, the optional ones
  // left out or not, a label with something visible in it and a secret.
  ghost predicate IsPayload(ms: seq<Member>) {
    && (forall i :: 0 <= i < |ms| ==> ms[i].key in {LABEL, SECRET, USERNAME, NOTES} && |ms[i].value| <= Limit(ms[i].key))
    && (forall i, j :: 0 <= i < j < |ms| ==> ms[i].key != ms[j].key)
    && Strip(Get(ms, LABEL)) != []
    && Get(ms, SECRET) != []
  }

  // The most a member with this key adds to the line.
  function Share(key: Str): nat { 12 * 8 + 12 * Limit(key) + 6 }

  function Budget(keys: set<Str>): nat {
    (if LABEL in keys then Share(LABEL) else 0) + (if SECRET in keys then Share(SECRET) else 0) +
    (if USERNAME in keys then Share(USERNAME) else 0) + (if NOTES in keys then Share(NOTES) else 0)
  }

  lemma KeysDiffer()
    ensures |LABEL| == 5 && |SECRET| == 6 && |USERNAME| == 8 && |NOTES| == 5 && LABEL != NOTES
    ensures forall k :: k in {LABEL, SECRET, USERNAME, NOTES} ==> MergePairs(k) == k
  {
    assert LABEL[0] == 'l' as int && NOTES[0] == 'n' as int;
    forall k | k in {LABEL, SECRET, USERNAME, NOTES}
      ensures MergePairs(k) == k
    {
      MergeIsIdentityIff(k);
    }
  }

  lemma {:induction false} PrintedWithinBudget(ms: seq<Member>, keys: set<Str>)
    requires keys <= {LABEL, SECRET, USERNAME, NOTES}
    requires forall i :: 0 <= i < |ms| ==> ms[i].key in keys && |ms[i].value| <= Limit(ms[i].key)
    requires forall i, j :: 0 <= i < j < |ms| ==> ms[i].key != ms[j].key
    ensures |PrintMembers(ms)| <= Budget(keys)
  {
    if ms != [] {
      var k := ms[0].key;
      KeysDiffer();
      assert |PrintMember(ms[0])| + 1 <= Share(k);
      BudgetWithout(keys, k);
      if |ms| > 1 {
        PrintedWithinBudget(ms[1..], keys - {k});
      }
    }
  }

  lemma BudgetWithout(keys: set<Str>, k: Str)
    requires keys <= {LABEL, SECRET, USERNAME, NOTES} && k in keys
    ensures Budget(keys) == Budget(keys - {k}) + Share(k)
  {
    KeysDiffer();
    hide Share;
  }

  lemma {:induction false} GetMerged(ms: seq<Member>, key: Str)
    requires forall i :: 0 <= i < |ms| ==> MergePairs(ms[i].key) == ms[i].key
    ensures Get(Merged(ms), key) == MergePairs(Get(ms, key))
  {
    if ms != [] {
      var front := ms[..|ms| - 1];
      assert Merged(ms)[..|ms| - 1] == Merged(front);
      GetMerged(front, key);
    }
  }

  lemma {:induction false} GetIsAValue(ms: seq<Member>, key: Str)
    ensures Get(ms, key) == [] || exists i :: 0 <= i < |ms| && ms[i].key == key && ms[i].value == Get(ms, key)
  {
    if ms != [] && ms[|ms| - 1].key != key {
      GetIsAValue(ms[..|ms| - 1], key);
    }
  }

  lemma {:induction false} TrimLeftBlanks(a: Str, u: Str)
    requires forall i :: 0 <= i < |a| ==> IsSpace(a[i])
    requires u != [] && !IsSpace(u[0])
    ensures TrimLeft(a + u) == u
  {
    if a == [] {
      assert a + u == u;
    } else {
      assert (a + u)[0] == a[0] && (a + u)[1..] == a[1..] + u;
      TrimLeftBlanks(a[1..], u);
    }
  }

  lemma {:induction false} TrimRightBlanks(u: Str, b: Str)
    requires forall i :: 0 <= i < |b| ==> IsSpace(b[i])
    requires u != [] && !IsSpace(u[|u| - 1])
    ensures TrimRight(u + b) == u
  {
    if b == [] {
      assert u + b == u;
    } else {
      var n := |u + b| - 1;
      assert (u + b)[n] == b[|b| - 1] && (u + b)[..n] == u + b[..|b| - 1];
      TrimRightBlanks(u, b[..|b| - 1]);
    }
  }

  // Blanks around a text that has none at its ends are all that strip() removes.
  lemma StripBetween(a: Str, core: Str, b: Str)
    requires forall i :: 0 <= i < |a| ==> IsSpace(a[i])
    requires forall i :: 0 <= i < |b| ==> IsSpace(b[i])
    requires core != [] && !IsSpace(core[0]) && !IsSpace(core[|core| - 1])
    ensures Strip(a + core + b) == core
  {
    assert a + core + b == a + (core + b);
    TrimLeftBlanks(a, core + b);
    TrimRightBlanks(core, b);
  }

  lemma PrintedIsPlainAscii(ms: seq<Member>)
    ensures forall i :: 0 <= i < |PrintMembers(ms)| ==> 0x20 <= PrintMembers(ms)[i] <= 0x7E
  {
    if ms != [] {
      var m := PrintMember(ms[0]);
      assert forall i :: 0 <= i < |m| ==> 0x20 <= m[i] <= 0x7E;
      if |ms| > 1 { PrintedIsPlainAscii(ms[1..]); }
    }
  }

  // The marker line of a payload is one line, short enough, and starts with the marker.
  lemma MarkerLineIsALine(ms: seq<Member>)
    requires IsPayload(ms)
    ensures var line := MarkerLine(ms);
            && IsMarkerLine(line) && Lead(line) == 0 && !TooLong(line)
            && Lines(line) == [line]
            && line[|MARKER|..] == [SPACE] + PrintObject(ms) + [LF]
  {
    hide PrintMembers, Lines, TooLong, IsMarkerLine, Lead;
    var line := MarkerLine(ms);
    KeysDiffer();
    PrintedWithinBudget(ms, {LABEL, SECRET, USERNAME, NOTES});
    PrintedIsPlainAscii(ms);
    MarkerLineShape(ms);
    OneLine(line, |line| - 1);
    ShortMarkerLine(line);
  }

  lemma MarkerLineShape(ms: seq<Member>)
    requires forall i :: 0 <= i < |PrintMembers(ms)| ==> 0x20 <= PrintMembers(ms)[i] <= 0x7E
    ensures var line := MarkerLine(ms); var n := |line| - 1;
            && |line| == |MARKER| + |PrintMembers(ms)| + 4 && line[n] == LF
            && line[..|MARKER|] == MARKER && line[|MARKER|..] == [SPACE] + PrintObject(ms) + [LF]
            && forall i :: 0 <= i < n ==> !IsBreak(line[i])
  {
    hide PrintMembers;
    var line := MarkerLine(ms);
    var n := |line| - 1;
    MarkerFacts();
    forall i | 0 <= i < n
      ensures !IsBreak(line[i])
    {
      if i < |MARKER| {
        assert line[i] == MARKER[i];
      } else if |MARKER| + 2 <= i < n - 1 {
        assert line[i] == PrintMembers(ms)[i - |MARKER| - 2];
      }
    }
  }

  lemma ShortMarkerLine(line: Str)
    requires |MARKER| <= |line| && ContentLen(line) <= MAX_LINE && line[..|MARKER|] == MARKER
    ensures IsMarkerLine(line) && Lead(line) == 0 && !TooLong(line)
  {
    MarkerFacts();
    assert line[0] == MARKER[0] && line[0..|MARKER|] == MARKER;
  }

  lemma OneLine(line: Str, n: nat)
    requires |line| == n + 1 && line[n] == LF
    requires forall i :: 0 <= i < n ==> !IsBreak(line[i])
    ensures Lines(line) == [line]
  {
    var b := BreakAt(line, 0);
    assert b < |line| ==> IsBreak(line[b]);
    assert b == n && LineEnd(line) == n + 1;
    assert line[..n + 1] == line && line[n + 1..] == [];
  }

  // ---- the round trip ----------------------------------------------------------------------

  function FieldsOf(ms: seq<Member>): Credential {
    Credential(Strip(Get(ms, LABEL)), Get(ms, SECRET), Strip(Get(ms, USERNAME)), Strip(Get(ms, NOTES)))
  }

  lemma RawRoundTrip(other: OtherValues, ms: seq<Member>)
    requires IsPayload(ms)
    ensures ParseRaw(other, [SPACE] + PrintObject(ms) + [LF]) == CredentialOf(Merged(ms))
  {
    hide PrintMembers, ReadObject, CredentialOf;
    StripBetween([SPACE], PrintObject(ms), [LF]);
    ObjectRoundTrip(other, ms);
  }

  lemma FieldMerged(ms: seq<Member>, key: Str)
    requires IsPayload(ms)
    ensures |Get(ms, key)| <= Limit(key)
    ensures Get(Merged(ms), key) == MergePairs(Get(ms, key))
  {
    hide Strip, Limit, Merged, MergePairs;
    KeysDiffer();
    GetIsAValue(ms, key);
    GetMerged(ms, key);
  }

  function MergedFields(c: Credential): Credential {
    Credential(MergePairs(c.title), MergePairs(c.secret), MergePairs(c.username), MergePairs(c.notes))
  }

  ghost predicate HasSplitField(c: Credential) {
    HasSplitPair(c.title) || HasSplitPair(c.secret) || HasSplitPair(c.username) || HasSplitPair(c.notes)
  }

  lemma FieldsRead(ms: seq<Member>)
    requires IsPayload(ms)
    ensures CredentialOf(Merged(ms)) == Some(MergedFields(FieldsOf(ms)))
  {
    hide Get, Merged, Strip, MergePairs, Limit;
    Limits();
    FieldMerged(ms, LABEL);
    FieldMerged(ms, SECRET);
    FieldMerged(ms, USERNAME);
    FieldMerged(ms, NOTES);
    hide LABEL, SECRET, USERNAME, NOTES;
    StripMerge(Get(ms, LABEL));
    StripMerge(Get(ms, USERNAME));
    StripMerge(Get(ms, NOTES));
    MergeKeepsSomething(Strip(Get(ms, LABEL)));
    MergeKeepsSomething(Get(ms, SECRET));
  }

  lemma MergeKeepsSomething(s: Str)
    ensures MergePairs(s) == [] <==> s == []
  {
  }

  // Nothing is lost in a credential exactly when none of its fields holds the two halves
  // of a character as two characters.
  lemma MergedFieldsIff(c: Credential)
    ensures MergedFields(c) == c <==> !HasSplitField(c)
  {
    MergeIsIdentityIff(c.title);
    MergeIsIdentityIff(c.secret);
    MergeIsIdentityIff(c.username);
    MergeIsIdentityIff(c.notes);
  }

  lemma Limits()
    ensures Limit(LABEL) == MAX_LABEL && Limit(SECRET) == MAX_SECRET
    ensures Limit(USERNAME) == MAX_USERNAME && Limit(NOTES) == MAX_NOTES
  {
    KeysDiffer();
  }

  // A printed marker line leaves one note and one credential, and its fields are exactly
  // the printed ones (trimmed where the server trims) if and only if none of them holds a
  // split pair.
  lemma MarkerRoundTrip(other: OtherValues, ms: seq<Member>)
    requires IsPayload(ms)
    ensures var cred := MergedFields(FieldsOf(ms));
            && Whole(Sanitizer(ParseMarker(other)), MarkerLine(ms)) == Piece(NoteStored(cred.title), [cred])
            && (cred == FieldsOf(ms) <==> !HasSplitField(FieldsOf(ms)))
  {
    hide MarkerLine, PrintObject, IsPayload, Lines, ParseRaw, NoteStored, CredentialOf, FieldsOf, Lead, TooLong, Process, MergedFields, HasSplitField;
    var line, rule := MarkerLine(ms), Sanitizer(ParseMarker(other));
    MergedFieldsIff(FieldsOf(ms));
    MarkerLineIsALine(ms);
    MarkerLineProcessed(other, ms);
    assert ProcessAll(rule, [line][1..]) == Nothing;
    JoinLaws(rule(line), Nothing, Nothing);
  }

  lemma MarkerLineProcessed(other: OtherValues, ms: seq<Member>)
    requires IsPayload(ms)
    ensures var cred := MergedFields(FieldsOf(ms));
            Process(ParseMarker(other), MarkerLine(ms)) == Piece(NoteStored(cred.title), [cred])
  {
    hide MarkerLine, PrintObject, IsPayload, Lines, ParseRaw, NoteStored, CredentialOf, FieldsOf, LeadEnd, TooLongFrom, MergedFields;
    MarkerLineIsALine(ms);
    RawRoundTrip(other, ms);
    FieldsRead(ms);
  }

  // Such a secret, all the way: an emoji given as its two halves is printed, read and stored as
  // one character.
  lemma SplitPairIsLost(other: OtherValues)
    ensures var ms := [Member(LABEL, [0x78]), Member(SECRET, [0xD83D, 0xDE00])];
            && IsPayload(ms) && FieldsOf(ms) == Credential([0x78], [0xD83D, 0xDE00], [], [])
            && Whole(Sanitizer(ParseMarker(other)), MarkerLine(ms)) == Piece(NoteStored([0x78]), [Credential([0x78], [0x1F600], [], [])])
  {
    hide Whole, MarkerLine, IsPayload, NoteStored, FieldsOf, LABEL, SECRET, MergePairs;
    SmallPayload([0x78], [0xD83D, 0xDE00]);
    MarkerRoundTrip(other, [Member(LABEL, [0x78]), Member(SECRET, [0xD83D, 0xDE00])]);
    SmallMerges();
  }

  lemma SmallMerges()
    ensures MergePairs([0x78]) == [0x78] && MergePairs([0xD83D, 0xDE00]) == [0x1F600] && MergePairs([]) == []
  {
    var s: Str := [0xD83D, 0xDE00];
    assert PairAt(s, 0) && s[2..] == [];
    MergeIsIdentityIff([0x78]);
  }

  lemma GetOfTwo(a: Str, u: Str, b: Str, v: Str, key: Str)
    ensures Get([Member(a, u), Member(b, v)], key) == if key == b then v else if key == a then u else []
  {
    var ms := [Member(a, u), Member(b, v)];
    assert ms[..1] == [ms[0]] && [ms[0]][..0] == [];
    assert Get([ms[0]], key) == if key == a then u else Get([], key);
  }

  lemma SmallFields(title: Str, secret: Str)
    requires title != [] && !IsSpace(title[0]) && !IsSpace(title[|title| - 1])
    ensures var ms := [Member(LABEL, title), Member(SECRET, secret)];
            Get(ms, LABEL) == Strip(title) == title && Get(ms, SECRET) == secret && Get(ms, USERNAME) == Get(ms, NOTES) == Strip([]) == []
  {
    KeysDiffer();
    hide LABEL, SECRET, USERNAME, NOTES, Get, Strip, MergePairs;
    GetOfTwo(LABEL, title, SECRET, secret, LABEL);
    GetOfTwo(LABEL, title, SECRET, secret, SECRET);
    GetOfTwo(LABEL, title, SECRET, secret, USERNAME);
    GetOfTwo(LABEL, title, SECRET, secret, NOTES);
    StripAlone(title);
    StripOfNothing();
  }

  lemma StripAlone(s: Str)
    requires s != [] && !IsSpace(s[0]) && !IsSpace(s[|s| - 1])
    ensures Strip(s) == s
  {
    assert [] + s + [] == s;
    StripBetween([], s, []);
  }

  lemma SmallPayload(title: Str, secret: Str)
    requires 0 < |secret| <= MAX_SECRET && 0 < |title| <= MAX_LABEL && !IsSpace(title[0]) && !IsSpace(title[|title| - 1])
    ensures var ms := [Member(LABEL, title), Member(SECRET, secret)];
            IsPayload(ms) && FieldsOf(ms) == Credential(title, secret, [], [])
  {
    SmallFields(title, secret);
    Limits();
    KeysDiffer();
    hide LABEL, SECRET, USERNAME, NOTES, Get, Strip, MergePairs, Limit;
  }

  lemma StripOfNothing()
    ensures Strip([]) == []
  {
  }
}
