// CSV documents as the dashboard writes them, and read by the rules of section 2 of RFC 4180
// with semicolons.
module Csv {
  import opened Text
  import opened Wrappers

  const SEMICOLON: Code := 0x3B
  const APOSTROPHE: Code := 0x27
  const BOM: Code := 0xFEFF
  const CRLF: Str := [CR, LF]

  // A cell's value; numbers as they print.
  datatype Value = Null | Shown(text: Str)

  // ---- writing ---------------------------------------------------------------------------------

  // What JavaScript's trim() removes.
  predicate IsTrimmed(c: Code) {
    || 0x09 <= c <= 0x0D
    || c in {0x20, 0xA0, 0x1680, 0x2028, 0x2029, 0x202F, 0x205F, 0x3000, 0xFEFF}
    || 0x2000 <= c <= 0x200A
  }

  predicate StartsFormula(s: Str) { s != [] && s[0] in {'=' as int, '+' as int, '-' as int, '@' as int, 0x09, CR} }

  // The text of a cell: a formula is disarmed with an apostrophe.
  function Guarded(v: Value): (r: Str)
    ensures !StartsFormula(r)
  {
    match v
    case Null => []
    case Shown(s) => if StartsFormula(s) then [APOSTROPHE] + s else s
  }

  function Doubled(s: Str): Str {
    if s == [] then [] else (if s[0] == QUOTE then [QUOTE, QUOTE] else [s[0]]) + Doubled(s[1..])
  }

  predicate NeedsQuotes(s: Str) {
    || (exists i :: 0 <= i < |s| && s[i] in {QUOTE, SEMICOLON, CR, LF})
    || (s != [] && (IsTrimmed(s[0]) || IsTrimmed(s[|s| - 1])))
  }

  function Cell(v: Value): Str {
    var s := Guarded(v);
    if NeedsQuotes(s) then [QUOTE] + Doubled(s) + [QUOTE] else s
  }

  function Line(row: seq<Value>): Str {
    if row == [] then [] else if |row| == 1 then Cell(row[0]) else Cell(row[0]) + [SEMICOLON] + Line(row[1..])
  }

  function Lines(rows: seq<seq<Value>>): Str { if rows == [] then [] else Line(rows[0]) + CRLF + Lines(rows[1..]) }

  function Document(header: seq<Str>, rows: seq<seq<Value>>): Str { [BOM] + Lines([Labels(header)] + rows) }

  function Labels(header: seq<Str>): (r: seq<Value>)
    ensures |r| == |header| && forall i :: 0 <= i < |r| ==> r[i] == Shown(header[i])
  {
    seq(|header|, i requires 0 <= i < |header| => Shown(header[i]))
  }

  // ---- reading -----------------------------------------------------------------------------------

  datatype Found<T> = Found(value: T, rest: Str)

  // A field after its opening quote: up to a quote that is not doubled.
  function ReadQuoted(t: Str): (r: Option<Found<Str>>)
    ensures r.Some? ==> |r.value.rest| < |t|
  {
    if t == [] then None
    else if t[0] != QUOTE then
      match ReadQuoted(t[1..])
      case None => None
      case Some(f) => Some(Found([t[0]] + f.value, f.rest))
    else if |t| > 1 && t[1] == QUOTE then
      match ReadQuoted(t[2..])
      case None => None
      case Some(f) => Some(Found([QUOTE] + f.value, f.rest))
    else Some(Found([], t[1..]))
  }

  // A field without quotes: up to a separator, a line end or the end.
  function ReadPlain(t: Str): (r: Option<Found<Str>>)
    ensures r.Some? ==> |r.value.rest| <= |t|
  {
    if t == [] || t[0] in {SEMICOLON, CR, LF} then Some(Found([], t))
    else if t[0] == QUOTE then None
    else match ReadPlain(t[1..])
      case None => None
      case Some(f) => Some(Found([t[0]] + f.value, f.rest))
  }

  function ReadField(t: Str): (r: Option<Found<Str>>)
    ensures r.Some? ==> |r.value.rest| <= |t|
  {
    if t != [] && t[0] == QUOTE then ReadQuoted(t[1..]) else ReadPlain(t)
  }

  function ReadRecord(t: Str): (r: Option<Found<seq<Str>>>)
    ensures r.Some? ==> |r.value.rest| <= |t|
    decreases |t|
  {
    match ReadField(t)
    case None => None
    case Some(f) =>
      if f.rest == [] || f.rest[0] != SEMICOLON then Some(Found([f.value], f.rest))
      else match ReadRecord(f.rest[1..])
        case None => None
        case Some(more) => Some(Found([f.value] + more.value, more.rest))
  }

  // Records, each but perhaps the last with its line end.
  function ReadRecords(t: Str): Option<seq<seq<Str>>>
    decreases |t|
  {
    if t == [] then Some([])
    else match ReadRecord(t)
      case None => None
      case Some(r) =>
        if r.rest == [] then Some([r.value])
        else if |r.rest| < 2 || r.rest[..2] != CRLF then None
        else match ReadRecords(r.rest[2..])
          case None => None
          case Some(more) => Some([r.value] + more)
  }

  function ReadDocument(t: Str): Option<seq<seq<Str>>> { ReadRecords(if t != [] && t[0] == BOM then t[1..] else t) }

  // ---- what is read back ---------------------------------------------------------------------------

  function Texts(row: seq<Value>): (r: seq<Str>)
    ensures |r| == |row| && forall i :: 0 <= i < |r| ==> r[i] == Guarded(row[i])
  {
    seq(|row|, i requires 0 <= i < |row| => Guarded(row[i]))
  }

  // An empty line reads as one empty cell.
  function ReadBack(row: seq<Value>): seq<Str> { if row == [] then [[]] else Texts(row) }

  function AllReadBack(rows: seq<seq<Value>>): (r: seq<seq<Str>>)
    ensures |r| == |rows| && forall i :: 0 <= i < |r| ==> r[i] == ReadBack(rows[i])
  {
    seq(|rows|, i requires 0 <= i < |rows| => ReadBack(rows[i]))
  }

  lemma {:induction false} QuotedRoundTrip(s: Str, rest: Str)
    requires rest == [] || rest[0] != QUOTE
    ensures ReadQuoted(Doubled(s) + [QUOTE] + rest) == Some(Found(s, rest))
  {
    var t := Doubled(s) + [QUOTE] + rest;
    if s == [] {
      assert t[1..] == rest;
    } else {
      QuotedRoundTrip(s[1..], rest);
      var more := Doubled(s[1..]) + [QUOTE] + rest;
      assert s == [s[0]] + s[1..];
      if s[0] == QUOTE { assert t == [QUOTE, QUOTE] + more; assert t[2..] == more; } else { assert t == [s[0]] + more; assert t[1..] == more; }
    }
  }

  lemma {:induction false} PlainRoundTrip(s: Str, rest: Str)
    requires forall i :: 0 <= i < |s| ==> s[i] !in {QUOTE, SEMICOLON, CR, LF}
    requires rest == [] || rest[0] in {SEMICOLON, CR, LF}
    ensures ReadPlain(s + rest) == Some(Found(s, rest))
  {
    if s == [] {
      assert s + rest == rest;
    } else {
      PlainRoundTrip(s[1..], rest);
      assert (s + rest)[1..] == s[1..] + rest && s == [s[0]] + s[1..];
    }
  }

  lemma QuotedField(s: Str, rest: Str)
    requires rest == [] || rest[0] != QUOTE
    ensures ReadField([QUOTE] + Doubled(s) + [QUOTE] + rest) == Some(Found(s, rest))
  {
    hide Doubled, ReadQuoted, ReadPlain;
    QuotedRoundTrip(s, rest);
    assert ([QUOTE] + Doubled(s) + [QUOTE] + rest)[1..] == Doubled(s) + [QUOTE] + rest;
  }

  lemma PlainField(s: Str, rest: Str)
    requires !NeedsQuotes(s) && (rest == [] || rest[0] in {SEMICOLON, CR, LF})
    ensures ReadField(s + rest) == Some(Found(s, rest))
  {
    hide ReadQuoted, ReadPlain, IsTrimmed;
    PlainRoundTrip(s, rest);
    assert s + rest == [] || (s + rest)[0] != QUOTE;
  }

  lemma CellRoundTrip(v: Value, rest: Str)
    requires rest == [] || rest[0] in {SEMICOLON, CR, LF}
    ensures ReadField(Cell(v) + rest) == Some(Found(Guarded(v), rest))
  {
    hide Guarded, NeedsQuotes, ReadField, Doubled;
    if NeedsQuotes(Guarded(v)) {
      QuotedField(Guarded(v), rest);
    } else {
      PlainField(Guarded(v), rest);
    }
  }

  lemma {:induction false} LineRoundTrip(row: seq<Value>, rest: Str)
    requires rest == [] || rest[0] in {CR, LF}
    ensures ReadRecord(Line(row) + rest) == Some(Found(ReadBack(row), rest))
  {
    hide ReadField, Cell, Guarded;
    if row == [] {
      PlainRoundTrip([], rest);
      EmptyField(rest);
      assert Line(row) + rest == rest;
    } else if |row| == 1 {
      CellRoundTrip(row[0], rest);
      assert Texts(row) == [Guarded(row[0])];
    } else {
      var more := Line(row[1..]) + rest;
      assert Line(row) + rest == Cell(row[0]) + ([SEMICOLON] + more);
      CellRoundTrip(row[0], [SEMICOLON] + more);
      assert ([SEMICOLON] + more)[1..] == more;
      LineRoundTrip(row[1..], rest);
      assert Texts(row) == [Guarded(row[0])] + Texts(row[1..]);
    }
  }

  lemma EmptyField(rest: Str)
    requires rest == [] || rest[0] in {CR, LF}
    ensures ReadField(rest) == Some(Found([], rest))
  {
  }

  lemma {:induction false} LinesRoundTrip(rows: seq<seq<Value>>)
    ensures ReadRecords(Lines(rows)) == Some(AllReadBack(rows))
  {
    hide ReadRecord, Line, ReadBack;
    if rows == [] {
      assert AllReadBack(rows) == [];
    } else {
      var more := Lines(rows[1..]);
      assert Lines(rows) == Line(rows[0]) + (CRLF + more);
      LineRoundTrip(rows[0], CRLF + more);
      assert (CRLF + more)[..2] == CRLF && (CRLF + more)[2..] == more;
      LinesRoundTrip(rows[1..]);
      assert AllReadBack(rows) == [ReadBack(rows[0])] + AllReadBack(rows[1..]);
    }
  }

  // Every document reads back as its cells, a row without cells as one empty cell.
  lemma DocumentRoundTrip(header: seq<Str>, rows: seq<seq<Value>>)
    ensures ReadDocument(Document(header, rows)) == Some(AllReadBack([Labels(header)] + rows))
  {
    LinesRoundTrip([Labels(header)] + rows);
    assert Document(header, rows)[1..] == Lines([Labels(header)] + rows);
    hide Lines, ReadRecords, AllReadBack;
  }

  // The cells come back exactly if every row has one.
  lemma CellsComeBackIff(header: seq<Str>, rows: seq<seq<Value>>)
    ensures var all := [Labels(header)] + rows;
            ReadDocument(Document(header, rows)) == Some(seq(|all|, i requires 0 <= i < |all| => Texts(all[i]))) <==>
            header != [] && forall i :: 0 <= i < |rows| ==> rows[i] != []
  {
    var all := [Labels(header)] + rows;
    DocumentRoundTrip(header, rows);
    hide ReadDocument, Document;
    var exact := seq(|all|, i requires 0 <= i < |all| => Texts(all[i]));
    assert forall i :: 0 <= i < |all| ==> (AllReadBack(all)[i] == exact[i] <==> all[i] != []);
    assert all[0] == Labels(header) && forall i :: 0 <= i < |rows| ==> all[i + 1] == rows[i];
    if header != [] && forall i :: 0 <= i < |rows| ==> rows[i] != [] {
      assert forall i :: 0 <= i < |all| ==> all[i] != [];
      assert AllReadBack(all) == exact;
    }
  }

  // Such a document: one header cell, one row without cells.
  lemma EmptyRowGainsACell()
    ensures ReadDocument(Document([[0x78]], [[]])) == Some([[[0x78]], [[]]])
  {
    var none: seq<Value> := [];
    DocumentRoundTrip([[0x78]], [none]);
    hide ReadDocument, Document;
    var all := [Labels([[0x78]])] + [none];
    assert AllReadBack(all) == [ReadBack(all[0]), ReadBack(all[1])];
    assert ReadBack(all[0]) == [[0x78]];
  }

  // A cell that begins with "=", "+", "-", "@", a tab or a carriage return is disarmed with an
  // apostrophe; nothing at all is an empty cell.
  lemma GuardIs(s: Str)
    ensures Guarded(Null) == []
    ensures Guarded(Shown(s)) == if |s| > 0 && (s[0] == 61 || s[0] == 43 || s[0] == 45 || s[0] == 64 || s[0] == 9 || s[0] == 13) then [39] + s else s
  {
  }

  // A blank to JavaScript: tab to carriage return, every space, and the byte order mark.
  predicate IsBlankAtEnd(c: Code) {
    c in {9, 10, 11, 12, 13, 32, 160, 5760, 8192, 8193, 8194, 8195, 8196, 8197, 8198, 8199, 8200, 8201, 8202, 8232, 8233, 8239, 8287,
          12288, 65279}
  }

  // A cell is quoted exactly if it holds a quote, a semicolon or a line break, or has a blank
  // at either end; its own quotes are then doubled.
  lemma QuotedIff(v: Value)
    ensures var s := Guarded(v);
            var plain := 34 !in s && 59 !in s && 10 !in s && 13 !in s && (s == [] || (!IsBlankAtEnd(s[0]) && !IsBlankAtEnd(s[|s| - 1])));
            && (plain ==> Cell(v) == s) && (!plain ==> Cell(v) == [34] + Doubled(s) + [34])
  {
    var s := Guarded(v);
    assert forall c: Code :: IsTrimmed(c) <==> IsBlankAtEnd(c);
    assert NeedsQuotes(s) <==> !(34 !in s && 59 !in s && 10 !in s && 13 !in s && (s == [] || (!IsBlankAtEnd(s[0]) && !IsBlankAtEnd(s[|s| - 1]))));
    hide IsTrimmed, IsBlankAtEnd, Doubled, Guarded;
  }

  lemma LetterCell(c: Code)
    requires 97 <= c <= 122
    ensures Cell(Shown([c])) == [c]
  {
    QuotedIff(Shown([c]));
    hide Cell, Doubled;
  }

  lemma FormulaCell()
    ensures Cell(Shown([61, 49])) == [39, 61, 49]
  {
    assert Guarded(Shown([61, 49])) == [39, 61, 49];
    QuotedIff(Shown([61, 49]));
    hide Cell, Doubled, Guarded;
  }

  lemma NoCell()
    ensures Cell(Null) == []
  {
  }

  lemma TwoCells(a: Value, b: Value)
    ensures Line([a, b]) == Cell(a) + [59] + Cell(b)
  {
    hide Cell;
    assert [a, b][1..] == [b];
  }

  lemma TwoLines(a: seq<Value>, b: seq<Value>)
    ensures Lines([a] + [b]) == Line(a) + [13, 10] + (Line(b) + [13, 10])
  {
    hide Line;
    var all, last: seq<seq<Value>> := [a] + [b], [b];
    assert all[1..] == last && last[1..] == [];
    assert Lines(last) == Line(b) + CRLF + [];
  }

  // A small document, character by character: the byte order mark, `a;b`, then `'=1;` and
  // line ends.
  lemma ExampleDocument()
    ensures Document([[97], [98]], [[Shown([61, 49]), Null]]) == [65279, 97, 59, 98, 13, 10, 39, 61, 49, 59, 13, 10]
  {
    var header, row := [Shown([97]), Shown([98])], [Shown([61, 49]), Null];
    assert Labels([[97], [98]]) == header;
    LetterCell(97);
    LetterCell(98);
    FormulaCell();
    NoCell();
    TwoCells(Shown([97]), Shown([98]));
    TwoCells(Shown([61, 49]), Null);
    TwoLines(header, row);
    hide Cell, Line, Lines, Labels;
  }

  // And no spreadsheet that reads the document finds a formula in it.
  lemma NoFormulaIsRead(header: seq<Str>, rows: seq<seq<Value>>)
    ensures ReadDocument(Document(header, rows)).Some?
    ensures forall r, c :: r in ReadDocument(Document(header, rows)).value && c in r ==> !StartsFormula(c)
  {
    DocumentRoundTrip(header, rows);
    hide ReadDocument, Document;
  }
}
