// JSON strings the way Python's json module writes and reads them (section 7 of RFC 8259).
module Json {
  import opened Text
  import opened Wrappers

  const U: Code := 'u' as int

  predicate IsHigh(c: int) { 0xD800 <= c <= 0xDBFF }
  predicate IsLow(c: int) { 0xDC00 <= c <= 0xDFFF }

  // ---- writing, with everything outside printable ASCII escaped ------------------------

  function HexDigit(n: nat): (r: Code)
    requires n < 16
  {
    if n < 10 then '0' as int + n else 'a' as int + (n - 10)
  }

  function Hex4(n: nat): (r: Str)
    requires n < 0x10000
    ensures |r| == 4
  {
    [HexDigit(n / 4096), HexDigit(n / 256 % 16), HexDigit(n / 16 % 16), HexDigit(n % 16)]
  }

  function UEscape(n: nat): (r: Str)
    requires n < 0x10000
    ensures |r| == 6
  {
    [BACKSLASH, U] + Hex4(n)
  }

  function HighHalf(c: Code): (r: nat)
    requires c >= 0x10000
    ensures IsHigh(r)
  {
    0xD800 + (c - 0x10000) / 0x400
  }

  function LowHalf(c: Code): (r: nat)
    requires c >= 0x10000
    ensures IsLow(r)
  {
    0xDC00 + (c - 0x10000) % 0x400
  }

  // The letter of a two-character escape, 0 where there is none.
  function ShortEscape(c: Code): Code {
    if c == QUOTE || c == BACKSLASH then c
    else if c == 0x0A then 'n' as int
    else if c == 0x0D then 'r' as int
    else if c == 0x09 then 't' as int
    else if c == 0x0C then 'f' as int
    else if c == 0x08 then 'b' as int
    else 0
  }

  function EscapeChar(c: Code): (r: Str)
    ensures 1 <= |r| <= 12
    ensures forall i :: 0 <= i < |r| ==> 0x20 <= r[i] <= 0x7E
  {
    if ShortEscape(c) != 0 then [BACKSLASH, ShortEscape(c)]
    else if 0x20 <= c <= 0x7E then [c]
    else if c < 0x10000 then UEscape(c)
    else UEscape(HighHalf(c)) + UEscape(LowHalf(c))
  }

  function Escape(s: Str): (r: Str)
    ensures |r| <= 12 * |s|
    ensures forall i :: 0 <= i < |r| ==> 0x20 <= r[i] <= 0x7E
  {
    if s == [] then [] else EscapeChar(s[0]) + Escape(s[1..])
  }

  function Quote(s: Str): (r: Str)
    ensures |r| <= 12 * |s| + 2
    ensures forall i :: 0 <= i < |r| ==> 0x20 <= r[i] <= 0x7E
  {
    [QUOTE] + Escape(s) + [QUOTE]
  }

  // ---- reading -------------------------------------------------------------------------

  function HexValue(c: Code): (r: Option<nat>)
    ensures r.Some? ==> r.value < 16
  {
    if '0' as int <= c <= '9' as int then Some(c - '0' as int)
    else if 'a' as int <= c <= 'f' as int then Some(c - 'a' as int + 10)
    else if 'A' as int <= c <= 'F' as int then Some(c - 'A' as int + 10)
    else None
  }

  function ReadHex4(t: Str): (r: Option<nat>)
    ensures r.Some? ==> r.value < 0x10000 && |t| >= 4
  {
    if |t| < 4 then None
    else match (HexValue(t[0]), HexValue(t[1]), HexValue(t[2]), HexValue(t[3]))
      case (Some(a), Some(b), Some(c), Some(d)) => Some(a * 4096 + b * 256 + c * 16 + d)
      case _ => None
  }

  function ShortUnescape(e: Code): Option<Code> {
    if e == QUOTE || e == BACKSLASH || e == '/' as int then Some(e)
    else if e == 'n' as int then Some(0x0A)
    else if e == 'r' as int then Some(0x0D)
    else if e == 't' as int then Some(0x09)
    else if e == 'f' as int then Some(0x0C)
    else if e == 'b' as int then Some(0x08)
    else None
  }

  function JoinHalves(h: nat, l: nat): Code
    requires IsHigh(h) && IsLow(l)
  {
    0x10000 + (h - 0xD800) * 0x400 + (l - 0xDC00)
  }

  datatype Read<T> = Read(value: T, rest: Str)

  // One character of a string literal, an escape (or a pair of them) counting as one.
  function ReadChar(t: Str): (r: Option<Read<Code>>)
    ensures r.Some? ==> |r.value.rest| < |t|
  {
    if t == [] || t[0] == QUOTE || t[0] < 0x20 then None
    else if t[0] != BACKSLASH then Some(Read(t[0], t[1..]))
    else if |t| < 2 then None
    else if t[1] != U then
      match ShortUnescape(t[1])
      case Some(c) => Some(Read(c, t[2..]))
      case None => None
    else match ReadHex4(t[2..])
      case None => None
      case Some(u) =>
        var rest := t[6..];
        if IsHigh(u) && |rest| >= 2 && rest[0] == BACKSLASH && rest[1] == U then
          match ReadHex4(rest[2..])
          case None => None
          case Some(v) => if IsLow(v) then Some(Read(JoinHalves(u, v), rest[6..])) else Some(Read(u, rest))
        else Some(Read(u, rest))
  }

  // The rest of a string literal whose opening quote has been read.
  function ReadString(t: Str): (r: Option<Read<Str>>)
    ensures r.Some? ==> |r.value.rest| < |t|
  {
    if t != [] && t[0] == QUOTE then Some(Read([], t[1..]))
    else match ReadChar(t)
      case None => None
      case Some(c) =>
        match ReadString(c.rest)
        case None => None
        case Some(s) => Some(Read([c.value] + s.value, s.rest))
  }

  // ---- what comes back -------------------------------------------------------------------

  // A string may hold a high surrogate right before a low one as two characters. They are
  // written as the two escapes of one character, and one character is what is read.
  predicate PairAt(s: Str, i: nat) {
    i + 1 < |s| && IsHigh(s[i]) && IsLow(s[i + 1])
  }

  predicate HasSplitPair(s: Str) { exists i :: 0 <= i < |s| && PairAt(s, i) }

  function MergePairs(s: Str): (r: Str)
    ensures |r| <= |s|
  {
    if s == [] then []
    else if PairAt(s, 0) then [JoinHalves(s[0], s[1])] + MergePairs(s[2..])
    else [s[0]] + MergePairs(s[1..])
  }

  lemma {:induction false} MergeIsIdentityIff(s: Str)
    ensures MergePairs(s) == s <==> !HasSplitPair(s)
    ensures |MergePairs(s)| == |s| <==> !HasSplitPair(s)
  {
    if s != [] {
      if PairAt(s, 0) {
        assert |MergePairs(s)| <= |s| - 1;
      } else {
        MergeIsIdentityIff(s[1..]);
        assert s == [s[0]] + s[1..];
        if HasSplitPair(s[1..]) {
          var i :| 0 <= i < |s[1..]| && PairAt(s[1..], i);
          assert PairAt(s, i + 1);
        }
        if HasSplitPair(s) {
          var i :| 0 <= i < |s| && PairAt(s, i);
          assert PairAt(s[1..], i - 1);
        }
      }
    }
  }

  lemma Hex4RoundTrip(n: nat, rest: Str)
    requires n < 0x10000
    ensures ReadHex4(Hex4(n) + rest) == Some(n)
  {
    HexDigitRoundTrip(n / 4096);
    HexDigitRoundTrip(n / 256 % 16);
    HexDigitRoundTrip(n / 16 % 16);
    HexDigitRoundTrip(n % 16);
    Base16(n);
    hide HexDigit, HexValue;
  }

  lemma HexDigitRoundTrip(n: nat)
    requires n < 16
    ensures HexValue(HexDigit(n)) == Some(n)
  {
  }

  lemma Base16(n: nat)
    requires n < 0x10000
    ensures n / 4096 * 4096 + n / 256 % 16 * 256 + n / 16 % 16 * 16 + n % 16 == n
  {
    Sixteenths(n);
    var a := n / 16;
    var b := a / 16;
    var c := b / 16;
    assert n == 16 * a + n % 16 && a == 16 * b + a % 16 && b == 16 * c + b % 16;
    assert b < 256 && c < 16;
  }

  lemma Sixteenths(n: nat)
    requires n < 0x10000
    ensures n / 256 == n / 16 / 16 && n / 4096 == n / 16 / 16 / 16
  {
  }

  lemma HalvesRoundTrip(c: Code)
    requires c >= 0x10000
    ensures JoinHalves(HighHalf(c), LowHalf(c)) == c
  {
  }

  lemma ShortRoundTrip(c: Code)
    requires ShortEscape(c) != 0
    ensures ShortUnescape(ShortEscape(c)) == Some(c) && ShortEscape(c) != U
  {
  }

  // One escape read back, unless it is the first half of a pair.
  lemma ReadUEscape(n: nat, rest: Str)
    requires n < 0x10000
    ensures UEscape(n) + rest != [] && (UEscape(n) + rest)[0] == BACKSLASH
    ensures (UEscape(n) + rest)[1] == U && ReadHex4((UEscape(n) + rest)[2..]) == Some(n)
    ensures (UEscape(n) + rest)[6..] == rest
  {
    var t := UEscape(n) + rest;
    assert t[2..] == Hex4(n) + rest;
    Hex4RoundTrip(n, rest);
  }

  // What may stand behind a high surrogate without being taken for its other half.
  predicate NoLowNext(t: Str) {
    |t| >= 2 && t[0] == BACKSLASH && t[1] == U ==>
      ReadHex4(t[2..]).Some? && !IsLow(ReadHex4(t[2..]).value)
  }

  lemma ReadPlainOrShort(c: Code, rest: Str)
    requires ShortEscape(c) != 0 || 0x20 <= c <= 0x7E
    ensures ReadChar(EscapeChar(c) + rest) == Some(Read(c, rest))
  {
    var t := EscapeChar(c) + rest;
    if ShortEscape(c) != 0 {
      ShortRoundTrip(c);
      assert t[0] == BACKSLASH && t[1] == ShortEscape(c) && t[2..] == rest;
    } else {
      assert t[0] == c && t[1..] == rest;
    }
  }

  lemma ReadBmp(c: Code, rest: Str)
    requires ShortEscape(c) == 0 && !(0x20 <= c <= 0x7E) && c < 0x10000
    requires IsHigh(c) ==> NoLowNext(rest)
    ensures ReadChar(EscapeChar(c) + rest) == Some(Read(c, rest))
  {
    hide UEscape, ReadHex4;
    ReadUEscape(c, rest);
  }

  lemma ReadPair(h: nat, l: nat, rest: Str)
    requires IsHigh(h) && IsLow(l)
    ensures ReadChar(UEscape(h) + (UEscape(l) + rest)) == Some(Read(JoinHalves(h, l), rest))
  {
    hide UEscape, ReadHex4;
    ReadUEscape(h, UEscape(l) + rest);
    ReadUEscape(l, rest);
  }

  lemma ReadEscapedChar(c: Code, rest: Str)
    requires IsHigh(c) ==> NoLowNext(rest)
    ensures ReadChar(EscapeChar(c) + rest) == Some(Read(c, rest))
  {
    hide ReadChar, UEscape, NoLowNext;
    if ShortEscape(c) != 0 || 0x20 <= c <= 0x7E {
      ReadPlainOrShort(c, rest);
    } else if c < 0x10000 {
      ReadBmp(c, rest);
    } else {
      HalvesRoundTrip(c);
      ReadPair(HighHalf(c), LowHalf(c), rest);
      assert EscapeChar(c) + rest == UEscape(HighHalf(c)) + (UEscape(LowHalf(c)) + rest);
    }
  }

  // An escaped string goes on with a low surrogate only where the string itself does.
  lemma NextEscape(s: Str, rest: Str)
    requires s == [] || !IsLow(s[0])
    ensures NoLowNext(Escape(s) + [QUOTE] + rest)
  {
    var t := Escape(s) + [QUOTE] + rest;
    if s == [] {
      assert t[0] == QUOTE;
    } else {
      var c, more := s[0], Escape(s[1..]) + [QUOTE] + rest;
      assert t == EscapeChar(c) + more;
      FirstEscape(c, more);
    }
  }

  lemma FirstEscape(c: Code, more: Str)
    requires !IsLow(c)
    ensures NoLowNext(EscapeChar(c) + more)
  {
    hide Hex4, ReadHex4, HexDigit;
    var t := EscapeChar(c) + more;
    if ShortEscape(c) != 0 {
      ShortRoundTrip(c);
      assert t[1] == ShortEscape(c);
    } else if 0x20 <= c <= 0x7E {
      assert t[0] == c;
    } else if c < 0x10000 {
      ReadUEscape(c, more);
    } else {
      assert t == UEscape(HighHalf(c)) + (UEscape(LowHalf(c)) + more);
      ReadUEscape(HighHalf(c), UEscape(LowHalf(c)) + more);
    }
  }

  lemma OpensWithChar(c: Code, more: Str)
    ensures EscapeChar(c) + more != [] && (EscapeChar(c) + more)[0] != QUOTE
  {
  }

  lemma OpensWithPair(h: nat, l: nat, more: Str)
    requires IsHigh(h) && IsLow(l)
    ensures EscapeChar(h) == UEscape(h) && EscapeChar(l) == UEscape(l)
  {
  }

  // Every string literal written is read back: as itself with split pairs merged.
  lemma {:induction false} StringRoundTrip(s: Str, rest: Str)
    ensures ReadString(Escape(s) + [QUOTE] + rest) == Some(Read(MergePairs(s), rest))
  {
    hide ReadChar, EscapeChar, UEscape, NoLowNext;
    var t := Escape(s) + [QUOTE] + rest;
    if s == [] {
      assert t[0] == QUOTE && t[1..] == rest;
    } else if PairAt(s, 0) {
      var more := Escape(s[2..]) + [QUOTE] + rest;
      assert Escape(s) == EscapeChar(s[0]) + (EscapeChar(s[1]) + Escape(s[2..])) by {
        assert s[1..][0] == s[1] && s[1..][1..] == s[2..];
      }
      assert t == EscapeChar(s[0]) + (EscapeChar(s[1]) + more);
      OpensWithChar(s[0], EscapeChar(s[1]) + more);
      OpensWithPair(s[0], s[1], more);
      ReadPair(s[0], s[1], more);
      StringRoundTrip(s[2..], rest);
    } else {
      var more := Escape(s[1..]) + [QUOTE] + rest;
      assert t == EscapeChar(s[0]) + more;
      if IsHigh(s[0]) { NextEscape(s[1..], rest); }
      OpensWithChar(s[0], more);
      ReadEscapedChar(s[0], more);
      StringRoundTrip(s[1..], rest);
    }
  }

  // ---- trimming and merging -------------------------------------------------------------

  lemma {:induction false} TrimLeftMerge(s: Str)
    ensures TrimLeft(MergePairs(s)) == MergePairs(TrimLeft(s))
  {
    if s != [] {
      FirstOfMerged(s);
      hide IsSpace, PairAt;
      if IsSpace(s[0]) { TrimLeftMerge(s[1..]); }
    }
  }

  // No half of a pair is a blank, and no joined pair.
  lemma FirstOfMerged(s: Str)
    requires s != []
    ensures MergePairs(s) != [] && (IsSpace(MergePairs(s)[0]) <==> IsSpace(s[0]))
    ensures IsSpace(s[0]) ==> MergePairs(s)[1..] == MergePairs(s[1..])
  {
  }

  lemma {:induction false} MergeSnoc(s: Str, c: Code)
    requires !IsLow(c)
    ensures MergePairs(s + [c]) == MergePairs(s) + [c]
  {
    var t := s + [c];
    if s == [] {
      assert t == [c] && MergePairs(t[1..]) == [];
    } else if PairAt(s, 0) {
      assert PairAt(t, 0) && t[2..] == s[2..] + [c];
      MergeSnoc(s[2..], c);
    } else {
      assert !PairAt(t, 0) && t[1..] == s[1..] + [c];
      MergeSnoc(s[1..], c);
    }
  }

  lemma {:induction false} MergeLast(s: Str)
    requires s != []
    ensures var m := MergePairs(s); m != [] && (IsSpace(m[|m| - 1]) <==> IsSpace(s[|s| - 1]))
  {
    if PairAt(s, 0) {
      if |s| > 2 { MergeLast(s[2..]); }
    } else if |s| > 1 {
      MergeLast(s[1..]);
    }
  }

  lemma {:induction false} TrimRightMerge(s: Str)
    ensures TrimRight(MergePairs(s)) == MergePairs(TrimRight(s))
  {
    if s != [] {
      var n := |s| - 1;
      MergeLast(s);
      if IsSpace(s[n]) {
        assert s == s[..n] + [s[n]];
        MergeSnoc(s[..n], s[n]);
        assert MergePairs(s)[..|MergePairs(s)| - 1] == MergePairs(s[..n]);
        TrimRightMerge(s[..n]);
      }
    }
  }

  // No half of a character is a space, so it does not matter which comes first.
  lemma StripMerge(s: Str)
    ensures Strip(MergePairs(s)) == MergePairs(Strip(s))
  {
    TrimLeftMerge(s);
    TrimRightMerge(TrimLeft(s));
  }
}
