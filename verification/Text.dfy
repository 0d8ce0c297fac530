// Text as the backend handles it: a Python string is a sequence of code points,
// lone surrogates included.
module Text {

  type Code = c: int | 0 <= c <= 0x10FFFF
  type Str = seq<Code>

  const LF: Code := 0x0A
  const CR: Code := 0x0D
  const QUOTE: Code := 0x22
  const BACKSLASH: Code := 0x5C
  const SPACE: Code := 0x20
  const COMMA: Code := 0x2C

  function Codes(s: string): (r: Str)
    ensures |r| == |s|
    ensures forall i :: 0 <= i < |s| ==> r[i] == s[i] as int
  {
    seq(|s|, i requires 0 <= i < |s| => s[i] as int)
  }

  // What Python's str.strip() removes and what \s matches in a str pattern.
  predicate IsSpace(c: Code) {
    || 0x09 <= c <= 0x0D
    || 0x1C <= c <= 0x20
    || c in {0x85, 0xA0, 0x1680, 0x2028, 0x2029, 0x202F, 0x205F, 0x3000}
    || 0x2000 <= c <= 0x200A
  }

  function TrimLeft(s: Str): (r: Str)
    ensures |r| <= |s| && r == s[|s| - |r|..]
    ensures r == [] || !IsSpace(r[0])
    ensures forall i :: 0 <= i < |s| - |r| ==> IsSpace(s[i])
  {
    if s == [] || !IsSpace(s[0]) then s else TrimLeft(s[1..])
  }

  function TrimRight(s: Str): (r: Str)
    ensures r <= s
    ensures r == [] || !IsSpace(r[|r| - 1])
    ensures forall i :: |r| <= i < |s| ==> IsSpace(s[i])
  {
    if s == [] || !IsSpace(s[|s| - 1]) then s else TrimRight(s[..|s| - 1])
  }

  // str.strip(): what is left begins and ends with something visible.
  function Strip(s: Str): (r: Str)
    ensures |r| <= |s|
    ensures r == [] || (!IsSpace(r[0]) && !IsSpace(r[|r| - 1]))
  {
    var l := TrimLeft(s);
    var r := TrimRight(l);
    assert r != [] ==> r[0] == l[0];
    r
  }

  // s[:n] of Python.
  function Take(s: Str, n: nat): (r: Str)
    ensures r <= s && |r| == if |s| <= n then |s| else n
  {
    if |s| <= n then s else s[..n]
  }

  function Concat(parts: seq<Str>): Str {
    if parts == [] then [] else parts[0] + Concat(parts[1..])
  }

  lemma {:induction false} ConcatSnoc(parts: seq<Str>, last: Str)
    ensures Concat(parts + [last]) == Concat(parts) + last
  {
    if parts == [] {
      assert parts + [last] == [last];
    } else {
      ConcatSnoc(parts[1..], last);
      assert (parts + [last])[1..] == parts[1..] + [last];
    }
  }
}

module Wrappers {
  datatype Option<+T> = None | Some(value: T)
}
