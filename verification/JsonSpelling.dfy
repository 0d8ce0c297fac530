// Any way to write a payload down: whatever a script's JSON encoder makes of its text, spaces
// and escapes, the server reads the same object.
module JsonSpelling {
  import opened Text
  import opened Wrappers
  import opened SecretLines
  import opened Json
  import opened Marker

  // ---- one string ------------------------------------------------------------------------

  // A character stands for itself, as a backslash and a letter, or as four hexadecimal digits
  // (eight beyond the basic plane), small or capital (section 7 of RFC 8259).
  datatype How = Raw | Letter | Hex(capital: bool)

  function LetterOf(c: Code): Code {
    if c == 34 || c == 92 || c == 47 then c
    else if c == 8 then 98
    else if c == 12 then 102
    else if c == 10 then 110
    else if c == 13 then 114
    else if c == 9 then 116
    else 0
  }

  function Digit(n: nat, capital: bool): Code
    requires n < 16
  {
    if n < 10 then 48 + n else if capital then 55 + n else 87 + n
  }

  function Four(n: nat, capital: bool): Str
    requires n < 65536
  {
    [Digit(n / 4096, capital), Digit(n / 256 % 16, capital), Digit(n / 16 % 16, capital), Digit(n % 16, capital)]
  }

  function Escaped(n: nat, capital: bool): Str
    requires n < 65536
  {
    [92, 117] + Four(n, capital)
  }

  predicate IsScalar(c: Code) { c < 55296 || c > 57343 }

  predicate CanSpell(c: Code, how: How) {
    match how
    case Raw => c >= 32 && c != 34 && c != 92
    case Letter => LetterOf(c) != 0
    case Hex(_) => true
  }

  function Spell(c: Code, how: How): (r: Str)
    ensures |r| >= 1
  {
    match how
    case Raw => [c]
    case Letter => [92, LetterOf(c)]
    case Hex(capital) =>
      if c < 65536 then Escaped(c, capital)
      else Escaped(55296 + (c - 65536) / 1024, capital) + Escaped(56320 + (c - 65536) % 1024, capital)
  }

  lemma DigitReads(n: nat, capital: bool)
    requires n < 16
    ensures HexValue(Digit(n, capital)) == Some(n)
  {
  }

  lemma FourRead(n: nat, capital: bool, rest: Str)
    requires n < 65536
    ensures ReadHex4(Four(n, capital) + rest) == Some(n)
  {
    DigitReads(n / 4096, capital);
    DigitReads(n / 256 % 16, capital);
    DigitReads(n / 16 % 16, capital);
    DigitReads(n % 16, capital);
    Base16(n);
    hide Digit, HexValue;
  }

  lemma EscapedReads(n: nat, capital: bool, rest: Str)
    requires n < 65536
    ensures var t := Escaped(n, capital) + rest;
            |t| >= 6 && t[0] == BACKSLASH && t[1] == U && ReadHex4(t[2..]) == Some(n) && t[6..] == rest
  {
    var t := Escaped(n, capital) + rest;
    assert t[2..] == Four(n, capital) + rest;
    FourRead(n, capital, rest);
    hide Digit, ReadHex4;
  }

  lemma SpelledCharReads(c: Code, how: How, rest: Str)
    requires IsScalar(c) && CanSpell(c, how)
    ensures ReadChar(Spell(c, how) + rest) == Some(Read(c, rest)) && (Spell(c, how) + rest)[0] != QUOTE
  {
    var t := Spell(c, how) + rest;
    match how {
      case Raw => assert t[1..] == rest;
      case Letter => assert t[2..] == rest && t[1] == LetterOf(c);
      case Hex(capital) =>
        hide ReadHex4, Escaped, Four, Digit;
        if c < 65536 {
          EscapedReads(c, capital, rest);
        } else {
          var h, l := 55296 + (c - 65536) / 1024, 56320 + (c - 65536) % 1024;
          assert t == Escaped(h, capital) + (Escaped(l, capital) + rest);
          EscapedReads(h, capital, Escaped(l, capital) + rest);
          EscapedReads(l, capital, rest);
          assert IsHigh(h) && IsLow(l) && JoinHalves(h, l) == c;
        }
    }
  }

  // A text and how each of its characters is written.
  datatype Spelling = Spelling(text: Str, hows: seq<How>)

  ghost predicate IsSpelling(s: Spelling) {
    && |s.hows| == |s.text|
    && forall i :: 0 <= i < |s.text| ==> IsScalar(s.text[i]) && CanSpell(s.text[i], s.hows[i])
  }

  function SpellText(s: Spelling): Str
    requires |s.hows| == |s.text|
    decreases |s.text|
  {
    if s.text == [] then [] else Spell(s.text[0], s.hows[0]) + SpellText(Spelling(s.text[1..], s.hows[1..]))
  }

  // However it is written, a text of Unicode characters is read as it is.
  lemma {:induction false} SpelledTextReads(s: Spelling, rest: Str)
    requires IsSpelling(s)
    ensures ReadString(SpellText(s) + [QUOTE] + rest) == Some(Read(s.text, rest))
    decreases |s.text|
  {
    hide ReadChar, Spell, CanSpell, IsScalar;
    var t := SpellText(s) + [QUOTE] + rest;
    if s.text == [] {
      assert t[0] == QUOTE && t[1..] == rest;
    } else {
      var tail := Spelling(s.text[1..], s.hows[1..]);
      var more := SpellText(tail) + [QUOTE] + rest;
      assert t == Spell(s.text[0], s.hows[0]) + more;
      SpelledCharReads(s.text[0], s.hows[0], more);
      SpelledTextReads(tail, rest);
      assert s.text == [s.text[0]] + tail.text;
    }
  }

  // How the printer of marker lines writes: printable ASCII as it is, quotes, backslashes and
  // five controls by letter, and everything else in small hexadecimal digits.
  lemma PrinterSpells(c: Code)
    requires IsScalar(c)
    ensures EscapeChar(c) ==
            Spell(c, if c == 34 || c == 92 || c == 8 || c == 9 || c == 10 || c == 12 || c == 13 then Letter
                     else if 32 <= c <= 126 then Raw else Hex(false))
  {
    if c != 34 && c != 92 && c != 8 && c != 9 && c != 10 && c != 12 && c != 13 && !(32 <= c <= 126) {
      if c < 65536 {
        SmallDigits(c);
      } else {
        SmallDigits(55296 + (c - 65536) / 1024);
        SmallDigits(56320 + (c - 65536) % 1024);
      }
    }
    hide Hex4, Four, HexDigit, Digit;
  }

  lemma SmallDigits(n: nat)
    requires n < 65536
    ensures Hex4(n) == Four(n, false)
  {
  }

  // What a control character is not, nor a letter that is none of those: either makes the
  // string, and with it the payload, invalid.
  lemma BadCharacters(c: Code, rest: Str)
    ensures c < 32 ==> ReadChar([c] + rest).None?
    ensures c != 34 && c != 92 && c != 47 && c != 98 && c != 102 && c != 110 && c != 114 && c != 116 && c != 117 ==>
              ReadChar([92, c] + rest).None?
  {
    assert ([92, c] + rest)[0] == 92 && ([92, c] + rest)[1] == c && ([c] + rest)[0] == c;
  }

  // ---- one object ------------------------------------------------------------------------

  // Blanks between the parts: spaces, tabs, line feeds and carriage returns.
  ghost predicate IsGap(s: Str) { forall i :: 0 <= i < |s| ==> s[i] == 32 || s[i] == 9 || s[i] == 10 || s[i] == 13 }

  lemma {:induction false} GapIsSkipped(gap: Str, t: Str)
    requires IsGap(gap) && (t == [] || (t[0] != 32 && t[0] != 9 && t[0] != 10 && t[0] != 13))
    ensures SkipBlanks(gap + t) == t
  {
    if gap == [] {
      assert gap + t == t;
    } else {
      assert (gap + t)[1..] == gap[1..] + t;
      GapIsSkipped(gap[1..], t);
    }
  }

  datatype Written = Written(key: Spelling, afterKey: Str, beforeValue: Str, value: Spelling, afterValue: Str, beforeNext: Str)

  ghost predicate IsWritten(w: Written) {
    IsSpelling(w.key) && IsSpelling(w.value) && IsGap(w.afterKey) && IsGap(w.beforeValue) && IsGap(w.afterValue) && IsGap(w.beforeNext)
  }

  ghost predicate AllWritten(ws: seq<Written>) { forall i :: 0 <= i < |ws| ==> IsWritten(ws[i]) }

  ghost function Quoted(s: Spelling): Str
    requires IsSpelling(s)
  {
    [34] + SpellText(s) + [34]
  }

  ghost function WrittenMember(w: Written): Str
    requires IsWritten(w)
  {
    Quoted(w.key) + w.afterKey + [58] + w.beforeValue + Quoted(w.value) + w.afterValue
  }

  ghost function WrittenMembers(ws: seq<Written>): Str
    requires AllWritten(ws)
  {
    if ws == [] then []
    else if |ws| == 1 then WrittenMember(ws[0])
    else WrittenMember(ws[0]) + [44] + ws[0].beforeNext + WrittenMembers(ws[1..])
  }

  function Meant(ws: seq<Written>): (r: seq<Member>)
    ensures |r| == |ws| && forall i :: 0 <= i < |ws| ==> r[i] == Member(ws[i].key.text, ws[i].value.text)
  {
    seq(|ws|, i requires 0 <= i < |ws| => Member(ws[i].key.text, ws[i].value.text))
  }

  lemma Parts(key: Str, a: Str, b: Str, value: Str, c: Str, rest: Str)
    ensures ([34] + key + [34]) + a + [58] + b + ([34] + value + [34]) + c + rest ==
            [34] + (key + [QUOTE] + (a + ([58] + (b + ([34] + (value + [QUOTE] + (c + rest)))))))
  {
  }

  lemma MemberReads(other: OtherValues, w: Written, rest: Str)
    requires IsWritten(w) && rest != [] && (rest[0] == 44 || rest[0] == 125)
    ensures ReadMember(other, WrittenMember(w) + rest) == Some(Read(Member(w.key.text, w.value.text), rest))
    ensures (WrittenMember(w) + rest)[0] == QUOTE
  {
    assert |w.key.hows| == |w.key.text| && |w.value.hows| == |w.value.text|;
    hide SpellText, ReadString, IsSpelling, IsGap, SkipBlanks;
    var t := WrittenMember(w) + rest;
    var end := w.afterValue + rest;
    var value := [34] + (SpellText(w.value) + [QUOTE] + end);
    var colon := [58] + (w.beforeValue + value);
    var afterKey := w.afterKey + colon;
    Parts(SpellText(w.key), w.afterKey, w.beforeValue, SpellText(w.value), w.afterValue, rest);
    assert t[1..] == SpellText(w.key) + [QUOTE] + afterKey;
    SpelledTextReads(w.key, afterKey);
    GapIsSkipped(w.afterKey, colon);
    assert colon[1..] == w.beforeValue + value;
    GapIsSkipped(w.beforeValue, value);
    assert value[1..] == SpellText(w.value) + [QUOTE] + end;
    SpelledTextReads(w.value, end);
    GapIsSkipped(w.afterValue, rest);
  }

  lemma {:induction false} MembersRead(other: OtherValues, ws: seq<Written>, rest: Str)
    requires ws != [] && AllWritten(ws)
    ensures ReadMembers(other, WrittenMembers(ws) + [125] + rest) == Some(Read(Meant(ws), rest))
    ensures (WrittenMembers(ws) + [125] + rest)[0] == QUOTE
  {
    hide WrittenMember, ReadMember, IsWritten, SkipBlanks;
    var t := WrittenMembers(ws) + [125] + rest;
    if |ws| == 1 {
      var more := [125] + rest;
      assert t == WrittenMember(ws[0]) + more;
      MemberReads(other, ws[0], more);
      assert more[1..] == rest && Meant(ws) == [Member(ws[0].key.text, ws[0].value.text)];
    } else {
      var inner := WrittenMembers(ws[1..]) + [125] + rest;
      var more := [44] + (ws[0].beforeNext + inner);
      assert t == WrittenMember(ws[0]) + more;
      MemberReads(other, ws[0], more);
      MembersRead(other, ws[1..], rest);
      assert more[1..] == ws[0].beforeNext + inner;
      assert IsGap(ws[0].beforeNext) by { GapsOf(ws[0]); }
      GapIsSkipped(ws[0].beforeNext, inner);
      assert Meant(ws) == [Member(ws[0].key.text, ws[0].value.text)] + Meant(ws[1..]);
    }
  }

  lemma GapsOf(w: Written)
    requires IsWritten(w)
    ensures IsGap(w.beforeNext)
  {
  }

  // An object written down in any way reads as its members; with anything but blanks behind
  // it, it is none.
  lemma AnySpellingReads(other: OtherValues, before: Str, inner: Str, ws: seq<Written>, behind: Str)
    requires ws != [] && AllWritten(ws) && IsGap(before) && IsGap(inner)
    ensures ReadObject(other, before + [123] + inner + WrittenMembers(ws) + [125] + behind) ==
              if SkipBlanks(behind) == [] then Some(Meant(ws)) else None
  {
    hide WrittenMembers, ReadMembers, Meant, SkipBlanks, AllWritten;
    var body := WrittenMembers(ws) + [125] + behind;
    var t := [123] + (inner + body);
    assert before + [123] + inner + WrittenMembers(ws) + [125] + behind == before + t;
    GapIsSkipped(before, t);
    assert t[1..] == inner + body;
    MembersRead(other, ws, behind);
    GapIsSkipped(inner, body);
  }

  lemma {:induction false} OnlyBlanksIff(s: Str)
    ensures SkipBlanks(s) == [] <==> IsGap(s)
  {
    if s != [] && s[0] in {32, 9, 10, 13} {
      OnlyBlanksIff(s[1..]);
      assert forall i :: 1 <= i < |s| ==> s[i] == s[1..][i - 1];
    }
  }

  // ---- the fields ------------------------------------------------------------------------

  // Of a key given twice the last value counts; one not given is empty.
  lemma {:induction false} LastValueCounts(ms: seq<Member>, key: Str, i: nat)
    requires i < |ms| && ms[i].key == key && forall j :: i < j < |ms| ==> ms[j].key != key
    ensures Get(ms, key) == ms[i].value
  {
    if i < |ms| - 1 { LastValueCounts(ms[..|ms| - 1], key, i); }
  }

  lemma {:induction false} AbsentIsEmpty(ms: seq<Member>, key: Str)
    requires forall i :: 0 <= i < |ms| ==> ms[i].key != key
    ensures Get(ms, key) == []
  {
    if ms != [] { AbsentIsEmpty(ms[..|ms| - 1], key); }
  }

  // "label", "secret", "username" and "notes".
  lemma KeysAre()
    ensures LABEL == [108, 97, 98, 101, 108] && SECRET == [115, 101, 99, 114, 101, 116]
    ensures USERNAME == [117, 115, 101, 114, 110, 97, 109, 101] && NOTES == [110, 111, 116, 101, 115]
  {
    var l, s, u, n := "label", "secret", "username", "notes";
    assert l[0] == 'l' && l[1] == 'a' && l[2] == 'b' && l[3] == 'e' && l[4] == 'l';
    assert s[0] == 's' && s[1] == 'e' && s[2] == 'c' && s[3] == 'r' && s[4] == 'e' && s[5] == 't';
    assert u[0] == 'u' && u[1] == 's' && u[2] == 'e' && u[3] == 'r' && u[4] == 'n' && u[5] == 'a' && u[6] == 'm' && u[7] == 'e';
    assert n[0] == 'n' && n[1] == 'o' && n[2] == 't' && n[3] == 'e' && n[4] == 's';
  }

  // A credential needs something to be seen in its label, and a secret. The secret is kept as
  // it is, blanks included, the other fields are trimmed, and all are cut to their limits.
  lemma CredentialIs(ms: seq<Member>)
    ensures CredentialOf(ms) ==
            var title, secret := Strip(Get(ms, LABEL)), Get(ms, SECRET);
            if |title| == 0 || |secret| == 0 then None
            else Some(Credential(if |title| <= 120 then title else title[..120], if |secret| <= 4096 then secret else secret[..4096],
                                 var user := Strip(Get(ms, USERNAME)); if |user| <= 120 then user else user[..120],
                                 var notes := Strip(Get(ms, NOTES)); if |notes| <= 500 then notes else notes[..500]))
  {
    hide Get, Strip, LABEL, SECRET, USERNAME, NOTES;
  }
}
