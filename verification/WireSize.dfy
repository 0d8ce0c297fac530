// How big the job message of a patch selection gets, and what it carries.
module WireSize {
  import opened Text
  import opened Wrappers
  import opened Json
  import opened Jobs

  const MAX_PATCH_ID_LEN: nat := 128

  // ---- the selection ---------------------------------------------------------------------------

  // Every id once, in the order of first mention.
  function Once(ids: seq<Str>): (r: seq<Str>)
    ensures |r| <= |ids| && (forall id :: id in r <==> id in ids)
    ensures forall i, j :: 0 <= i < j < |r| ==> r[i] != r[j]
  {
    if ids == [] then []
    else
      var front, last := ids[..|ids| - 1], ids[|ids| - 1];
      assert ids == front + [last];
      if last in Once(front) then Once(front) else Once(front) + [last]
  }

  // An id was mentioned before every mention of another.
  ghost predicate Precedes(ids: seq<Str>, first: Str, second: Str) {
    forall q :: 0 <= q < |ids| && ids[q] == second ==> first in ids[..q]
  }

  ghost predicate InOrder(ids: seq<Str>, r: seq<Str>) { forall i, j :: 0 <= i < j < |r| ==> Precedes(ids, r[i], r[j]) }

  // Of two ids sent, the first was mentioned before every mention of the second.
  lemma {:induction false} OnceIsInOrder(ids: seq<Str>)
    ensures InOrder(ids, Once(ids))
  {
    if ids != [] {
      var front, last := ids[..|ids| - 1], ids[|ids| - 1];
      OnceIsInOrder(front);
      assert ids == front + [last];
      OneMore(front, last, Once(front));
    }
  }

  lemma OneMore(front: seq<Str>, last: Str, before: seq<Str>)
    requires InOrder(front, before) && forall id :: id in before <==> id in front
    ensures InOrder(front + [last], if last in before then before else before + [last])
  {
    var r := if last in before then before else before + [last];
    forall i, j | 0 <= i < j < |r| ensures Precedes(front + [last], r[i], r[j]) {
      assert r[i] == before[i] && before[i] in front;
      if j < |before| {
        assert Precedes(front, before[i], before[j]);
        PrecedesLater(front, last, r[i], r[j]);
      } else {
        assert (front + [last])[..|front|] == front;
      }
    }
  }

  lemma PrecedesLater(front: seq<Str>, last: Str, first: Str, second: Str)
    requires Precedes(front, first, second) && first in front
    ensures Precedes(front + [last], first, second)
  {
    var ids := front + [last];
    forall q | 0 <= q < |ids| && ids[q] == second ensures first in ids[..q] {
      assert ids[..|front|] == front;
      if q < |front| { assert front[q] == second && ids[..q] == front[..q]; }
    }
  }

  // What the endpoint sends for an explicit list: nothing unless each id is pending.
  function Selected(ids: seq<Str>, pending: set<Str>): (r: Option<seq<Str>>)
    ensures r.Some? <==> forall id :: id in ids ==> id in pending
    ensures r.Some? ==> r.value == Once(ids)
  {
    if forall id :: id in Once(ids) ==> id in pending then Some(Once(ids)) else None
  }

  // ---- the message -------------------------------------------------------------------------------

  function Joined(parts: seq<Str>, separator: Str): Str {
    if parts == [] then [] else if |parts| == 1 then parts[0] else parts[0] + separator + Joined(parts[1..], separator)
  }

  function Quoted(ids: seq<Str>): (r: seq<Str>)
    ensures |r| == |ids| && forall i :: 0 <= i < |ids| ==> r[i] == Quote(ids[i])
  {
    seq(|ids|, i requires 0 <= i < |ids| => Quote(ids[i]))
  }

  // The list as the job row keeps it: everything outside ASCII escaped.
  function Command(ids: seq<Str>): Str { Codes("[") + Joined(Quoted(ids), Codes(", ")) + Codes("]") }

  // The socket's JSON keeps characters as they are, but for quotes, backslashes and controls.
  function PlainChar(c: Code): (r: Str)
    ensures |r| >= 1
  {
    if ShortEscape(c) != 0 then [BACKSLASH, ShortEscape(c)] else if c < 0x20 then UEscape(c) else [c]
  }

  function PlainText(s: Str): Str { if s == [] then [] else PlainChar(s[0]) + PlainText(s[1..]) }

  function PlainQuote(s: Str): Str { [QUOTE] + PlainText(s) + [QUOTE] }

  function PlainQuoted(ids: seq<Str>): (r: seq<Str>)
    ensures |r| == |ids| && forall i :: 0 <= i < |ids| ==> r[i] == PlainQuote(ids[i])
  {
    seq(|ids|, i requires 0 <= i < |ids| => PlainQuote(ids[i]))
  }

  const HEAD: string := "{\"type\":\"job\",\"payload\":{\"job_id\":"
  const COMMAND: string := ",\"kind\":\"patch_install\",\"command\":\""
  const IDS: string := "\",\"shell\":\"\",\"patch_ids\":["
  const TAIL: string := "]}}"

  function Message(jobId: Str, ids: seq<Str>): Str {
    Codes(HEAD) + jobId + Codes(COMMAND) + PlainText(Command(ids)) + Codes(IDS) + Joined(PlainQuoted(ids), Codes(",")) + Codes(TAIL)
  }

  // ---- one character -------------------------------------------------------------------------------

  // What a character costs in both places together.
  function Cost(c: Code): nat { ByteLen(PlainText(EscapeChar(c))) + ByteLen(PlainChar(c)) }

  lemma {:induction false} PlainConcat(a: Str, b: Str)
    ensures PlainText(a + b) == PlainText(a) + PlainText(b)
  {
    if a == [] {
      assert a + b == b;
    } else {
      assert (a + b)[1..] == a[1..] + b;
      PlainConcat(a[1..], b);
    }
  }

  lemma PlainUEscape(n: nat)
    requires n < 0x10000
    ensures ByteLen(PlainText(UEscape(n))) == 7
  {
    var e := UEscape(n);
    PlainConcat([BACKSLASH], e[1..]);
    assert e == [BACKSLASH] + e[1..];
    PlainHarmless(e[1..]);
    assert PlainText([BACKSLASH]) == [BACKSLASH, BACKSLASH] by { assert [BACKSLASH][1..] == []; assert PlainChar(BACKSLASH) + [] == PlainChar(BACKSLASH); }
    AsciiBytes([BACKSLASH, BACKSLASH] + e[1..]);
  }

  predicate Harmless(s: Str) { forall i :: 0 <= i < |s| ==> 0x20 <= s[i] <= 0x7E && s[i] != BACKSLASH && s[i] != QUOTE }

  lemma {:induction false} PlainHarmless(s: Str)
    requires Harmless(s)
    ensures PlainText(s) == s
  {
    if s != [] {
      PlainHarmless(s[1..]);
      assert PlainChar(s[0]) == [s[0]];
      assert s == [s[0]] + s[1..];
    }
  }

  lemma PlainShort(e: Code)
    requires 0x20 <= e <= 0x7E
    ensures ByteLen(PlainText([BACKSLASH, e])) <= 4
  {
    assert [BACKSLASH, e][1..] == [e] && [e][1..] == [];
    assert PlainText([e]) == PlainChar(e) + [];
    assert PlainText([BACKSLASH, e]) == [BACKSLASH, BACKSLASH] + PlainText([e]);
    AsciiBytes([BACKSLASH, BACKSLASH] + PlainText([e]));
  }

  lemma EscapedCost(c: Code)
    ensures ByteLen(PlainText(EscapeChar(c))) <= if c < 0x10000 then 7 else 14
    ensures c >= 0x10000 ==> ByteLen(PlainText(EscapeChar(c))) == 14
    ensures ShortEscape(c) != 0 ==> ByteLen(PlainText(EscapeChar(c))) <= 4
  {
    if ShortEscape(c) != 0 {
      PlainShort(ShortEscape(c));
    } else if 0x20 <= c <= 0x7E {
      PlainHarmless([c]);
      AsciiBytes([c]);
    } else if c < 0x10000 {
      PlainUEscape(c);
    } else {
      PlainConcat(UEscape(HighHalf(c)), UEscape(LowHalf(c)));
      PlainUEscape(HighHalf(c));
      PlainUEscape(LowHalf(c));
      ByteLenConcat(PlainText(UEscape(HighHalf(c))), PlainText(UEscape(LowHalf(c))));
    }
    hide PlainText, UEscape, HighHalf, LowHalf, ByteLen;
  }

  lemma PlainCost(c: Code)
    ensures ByteLen(PlainChar(c)) == if ShortEscape(c) != 0 then 2 else if c < 0x20 then 6 else Bytes(c)
  {
    if ShortEscape(c) != 0 || c < 0x20 {
      AsciiBytes(PlainChar(c));
    } else {
      assert [c][1..] == [];
    }
    hide UEscape;
  }

  // Never more than 18 bytes; exactly 18 beyond the basic plane.
  lemma CostIsAtMost18(c: Code)
    ensures Cost(c) <= 18
    ensures c >= 0x10000 ==> Cost(c) == 18
  {
    EscapedCost(c);
    PlainCost(c);
    hide PlainText, PlainChar, EscapeChar, ByteLen;
  }

  // ---- an id, and a list of them ----------------------------------------------------------------------

  predicate Wide(s: Str) { forall i :: 0 <= i < |s| ==> s[i] >= 0x10000 }

  lemma {:induction false} EscapeCost(id: Str)
    ensures ByteLen(PlainText(Escape(id))) + ByteLen(PlainText(id)) <= 18 * |id|
    ensures Wide(id) ==> ByteLen(PlainText(Escape(id))) + ByteLen(PlainText(id)) == 18 * |id|
  {
    if id != [] {
      EscapeCost(id[1..]);
      CostIsAtMost18(id[0]);
      PlainConcat(EscapeChar(id[0]), Escape(id[1..]));
      ByteLenConcat(PlainText(EscapeChar(id[0])), PlainText(Escape(id[1..])));
      ByteLenConcat(PlainChar(id[0]), PlainText(id[1..]));
    }
    hide PlainChar, EscapeChar, ByteLen;
  }

  function IdCost(id: Str): nat { ByteLen(PlainText(Quote(id))) + ByteLen(PlainQuote(id)) }

  lemma PlainQuoteMark()
    ensures PlainText([QUOTE]) == [BACKSLASH, QUOTE] && ByteLen([BACKSLASH, QUOTE]) == 2 && ByteLen([QUOTE]) == 1
  {
    assert [QUOTE][1..] == [];
    assert PlainText([QUOTE]) == PlainChar(QUOTE) + [];
    AsciiBytes([BACKSLASH, QUOTE]);
    AsciiBytes([QUOTE]);
  }

  // Two quotes that cost two bytes in the command and one in the list.
  lemma IdCosts(id: Str)
    ensures IdCost(id) <= 18 * |id| + 6
    ensures Wide(id) ==> IdCost(id) == 18 * |id| + 6
  {
    EscapeCost(id);
    PlainQuoteMark();
    PlainConcat([QUOTE] + Escape(id), [QUOTE]);
    PlainConcat([QUOTE], Escape(id));
    ByteLenConcat(PlainText([QUOTE] + Escape(id)), PlainText([QUOTE]));
    ByteLenConcat(PlainText([QUOTE]), PlainText(Escape(id)));
    ByteLenConcat([QUOTE] + PlainText(id), [QUOTE]);
    ByteLenConcat([QUOTE], PlainText(id));
    hide PlainText, Escape, ByteLen;
  }

  function Total(ids: seq<Str>): nat { if ids == [] then 0 else IdCost(ids[0]) + Total(ids[1..]) }

  // The two lists together: their ids, and three bytes between two of them.
  lemma {:induction false} ListCost(ids: seq<Str>)
    requires ids != []
    ensures ByteLen(PlainText(Joined(Quoted(ids), Codes(", ")))) + ByteLen(Joined(PlainQuoted(ids), Codes(","))) == Total(ids) + 3 * (|ids| - 1)
  {
    hide PlainText, ByteLen, Quote, PlainQuote;
    if |ids| == 1 {
      assert ids[1..] == [];
    } else {
      ListCost(ids[1..]);
      assert Quoted(ids)[1..] == Quoted(ids[1..]) && PlainQuoted(ids)[1..] == PlainQuoted(ids[1..]);
      var q, p := Joined(Quoted(ids[1..]), Codes(", ")), Joined(PlainQuoted(ids[1..]), Codes(","));
      assert Joined(Quoted(ids), Codes(", ")) == Quote(ids[0]) + Codes(", ") + q;
      assert Joined(PlainQuoted(ids), Codes(",")) == PlainQuote(ids[0]) + Codes(",") + p;
      PlainConcat(Quote(ids[0]) + Codes(", "), q);
      PlainConcat(Quote(ids[0]), Codes(", "));
      PlainHarmless(Codes(", "));
      AsciiBytes(Codes(", "));
      AsciiBytes(Codes(","));
      ByteLenConcat(PlainText(Quote(ids[0]) + Codes(", ")), PlainText(q));
      ByteLenConcat(PlainText(Quote(ids[0])), Codes(", "));
      ByteLenConcat(PlainQuote(ids[0]) + Codes(","), p);
      ByteLenConcat(PlainQuote(ids[0]), Codes(","));
    }
  }

  lemma {:induction false} TotalIsBounded(ids: seq<Str>)
    requires forall id :: id in ids ==> |id| <= MAX_PATCH_ID_LEN
    ensures Total(ids) <= 2310 * |ids|
    ensures (forall id :: id in ids ==> |id| == MAX_PATCH_ID_LEN && Wide(id)) ==> Total(ids) == 2310 * |ids|
  {
    hide IdCost;
    if ids != [] {
      assert forall id :: id in ids[1..] ==> id in ids;
      IdCosts(ids[0]);
      TotalIsBounded(ids[1..]);
    }
  }

  // ---- the whole message ---------------------------------------------------------------------------------

  // What surrounds the lists, the brackets of the command included.
  const ENVELOPE: nat := 100

  lemma CommandCost(ids: seq<Str>)
    ensures ByteLen(PlainText(Command(ids))) == ByteLen(PlainText(Joined(Quoted(ids), Codes(", ")))) + 2
  {
    var list := Joined(Quoted(ids), Codes(", "));
    PlainConcat(Codes("[") + list, Codes("]"));
    PlainConcat(Codes("["), list);
    PlainHarmless(Codes("["));
    PlainHarmless(Codes("]"));
    ByteLenConcat(Codes("[") + PlainText(list), Codes("]"));
    ByteLenConcat(Codes("["), PlainText(list));
    AsciiBytes(Codes("["));
    AsciiBytes(Codes("]"));
    hide Joined, Quoted, PlainText, ByteLen;
  }

  predicate Digits(s: Str) { forall i :: 0 <= i < |s| ==> '0' as int <= s[i] <= '9' as int }

  lemma EnvelopeCost()
    ensures ByteLen(Codes(HEAD)) + ByteLen(Codes(COMMAND)) + ByteLen(Codes(IDS)) + ByteLen(Codes(TAIL)) + 2 == ENVELOPE
  {
    hide ByteLen;
    AsciiBytes(Codes(HEAD));
    AsciiBytes(Codes(COMMAND));
    AsciiBytes(Codes(IDS));
    AsciiBytes(Codes(TAIL));
  }

  lemma SevenParts(a: Str, b: Str, c: Str, d: Str, e: Str, f: Str, g: Str)
    ensures ByteLen(a + b + c + d + e + f + g) == ByteLen(a) + ByteLen(b) + ByteLen(c) + ByteLen(d) + ByteLen(e) + ByteLen(f) + ByteLen(g)
  {
    hide ByteLen;
    ByteLenConcat(a + b + c + d + e + f, g);
    ByteLenConcat(a + b + c + d + e, f);
    ByteLenConcat(a + b + c + d, e);
    ByteLenConcat(a + b + c, d);
    ByteLenConcat(a + b, c);
    ByteLenConcat(a, b);
  }

  lemma MessageParts(jobId: Str, ids: seq<Str>)
    ensures ByteLen(Message(jobId, ids)) == ENVELOPE - 2 + ByteLen(jobId) + ByteLen(PlainText(Command(ids))) + ByteLen(Joined(PlainQuoted(ids), Codes(",")))
  {
    hide PlainText, ByteLen, Command, PlainQuoted, Joined, Codes;
    EnvelopeCost();
    SevenParts(Codes(HEAD), jobId, Codes(COMMAND), PlainText(Command(ids)), Codes(IDS), Joined(PlainQuoted(ids), Codes(",")), Codes(TAIL));
  }

  lemma MessageCost(jobId: Str, ids: seq<Str>)
    requires Digits(jobId) && ids != []
    ensures ByteLen(Message(jobId, ids)) == ENVELOPE + |jobId| + Total(ids) + 3 * (|ids| - 1)
  {
    hide PlainText, ByteLen, Command, PlainQuoted, Joined, Total, Codes, Message;
    MessageParts(jobId, ids);
    AsciiBytes(jobId);
    CommandCost(ids);
    ListCost(ids);
  }

  // Every selection the endpoint accepts makes a message the agent reads.
  lemma SelectionsFit(jobId: Str, ids: seq<Str>, pending: set<Str>)
    requires Digits(jobId) && |jobId| <= 19
    requires 0 < |ids| <= 400 && forall id :: id in ids ==> |id| <= 128
    requires Selected(ids, pending).Some?
    ensures ByteLen(Message(jobId, Selected(ids, pending).value)) < 1024 * 1024
  {
    hide Total, Message, ByteLen, Once;
    var sent := Once(ids);
    assert ids[0] in sent;
    MessageCost(jobId, sent);
    TotalIsBounded(sent);
  }

  // The limit matters: full ids of the costliest characters fit up to 453 of them.
  lemma FullIdsFitIff(jobId: Str, ids: seq<Str>)
    requires Digits(jobId) && |jobId| <= 19 && ids != []
    requires forall id :: id in ids ==> |id| == 128 && Wide(id)
    ensures ByteLen(Message(jobId, ids)) <= 1024 * 1024 <==> |ids| <= 453
  {
    hide Total, Message, ByteLen;
    MessageCost(jobId, ids);
    TotalIsBounded(ids);
  }

  // ---- what it carries ---------------------------------------------------------------------------------------

  // The list read back from the job row, as dispatch does.
  function ReadIds(t: Str): (r: Option<seq<Str>>) {
    if t == Codes("[]") then Some([])
    else if t == [] || t[0] != '[' as int then None
    else ReadMore(t[1..])
  }

  // A quoted id, then a comma and a space and more, or the end.
  function ReadMore(t: Str): Option<seq<Str>>
    decreases |t|
  {
    if t == [] || t[0] != QUOTE then None
    else match ReadString(t[1..])
      case None => None
      case Some(s) =>
        if s.rest == Codes("]") then Some([s.value])
        else if |s.rest| < 2 || s.rest[..2] != Codes(", ") then None
        else match ReadMore(s.rest[2..])
          case None => None
          case Some(more) => Some([s.value] + more)
  }

  lemma JoinedFirst(ids: seq<Str>)
    requires |ids| > 1
    ensures Joined(Quoted(ids), Codes(", ")) == Quote(ids[0]) + Codes(", ") + Joined(Quoted(ids[1..]), Codes(", "))
  {
    hide Quote;
    assert Quoted(ids)[1..] == Quoted(ids[1..]);
  }

  // One more id of the list, with what follows it.
  lemma ReadOne(id: Str, tail: Str, rest: Str)
    requires !HasSplitPair(id)
    requires tail == Codes("]") || tail == Codes(", ") + rest
    ensures ReadMore(Quote(id) + tail)
         == if tail == Codes("]") then Some([id])
            else match ReadMore(rest) { case None => None case Some(more) => Some([id] + more) }
  {
    hide ReadString, Escape, HasSplitPair, MergePairs;
    var t := Quote(id) + tail;
    assert t[1..] == Escape(id) + [QUOTE] + tail;
    StringRoundTrip(id, tail);
    MergeIsIdentityIff(id);
    if tail != Codes("]") {
      assert tail[..2] == Codes(", ") && tail[2..] == rest;
    }
  }

  lemma {:induction false} ReadMoreRoundTrip(ids: seq<Str>)
    requires ids != [] && forall id :: id in ids ==> !HasSplitPair(id)
    ensures ReadMore(Joined(Quoted(ids), Codes(", ")) + Codes("]")) == Some(ids)
  {
    hide ReadMore, Quote, HasSplitPair;
    assert ids[0] in ids;
    if |ids| == 1 {
      ReadOne(ids[0], Codes("]"), []);
      assert ids == [ids[0]];
    } else {
      var rest := Joined(Quoted(ids[1..]), Codes(", ")) + Codes("]");
      JoinedFirst(ids);
      assert Joined(Quoted(ids), Codes(", ")) + Codes("]") == Quote(ids[0]) + (Codes(", ") + rest);
      assert |Codes(", ") + rest| > 1;
      ReadOne(ids[0], Codes(", ") + rest, rest);
      assert forall id :: id in ids[1..] ==> id in ids;
      ReadMoreRoundTrip(ids[1..]);
      assert ids == [ids[0]] + ids[1..];
    }
  }

  // The job's list comes back as it was selected; ids of Unicode characters hold no split pair.
  lemma SelectionRoundTrip(ids: seq<Str>)
    requires forall id :: id in ids ==> !HasSplitPair(id)
    ensures ReadIds(Command(ids)) == Some(ids)
  {
    hide ReadMore, HasSplitPair, Quote;
    if ids == [] {
      assert Command(ids) == Codes("[]");
    } else {
      var list := Joined(Quoted(ids), Codes(", "));
      assert Command(ids) == Codes("[") + (list + Codes("]"));
      assert Command(ids)[1..] == list + Codes("]");
      ReadMoreRoundTrip(ids);
      OpensWithQuote(ids);
      assert Command(ids)[1] == QUOTE && Codes("[]")[1] != QUOTE;
    }
  }

  lemma OpensWithQuote(ids: seq<Str>)
    requires ids != []
    ensures Joined(Quoted(ids), Codes(", ")) != [] && Joined(Quoted(ids), Codes(", "))[0] == QUOTE
  {
  }
}
