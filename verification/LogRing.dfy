// The agent's ring of recent log lines, fed by writes cut anywhere.
module LogRing {

  type Byte = b: int | 0 <= b < 256
  type Bytes = seq<Byte>

  const LF: Byte := 10
  const CR: Byte := 13

  // ---- what a text comes to ---------------------------------------------------------------------

  // The place of the first newline, or the length.
  function Newline(t: Bytes): (i: nat)
    ensures i <= |t| && (forall k :: 0 <= k < i ==> t[k] != LF) && (i < |t| ==> t[i] == LF)
  {
    if t == [] || t[0] == LF then 0 else 1 + Newline(t[1..])
  }

  function Trimmed(line: Bytes): (r: Bytes)
    ensures r <= line && (r == [] || r[|r| - 1] != CR)
    ensures forall i :: |r| <= i < |line| ==> line[i] == CR
  {
    if line == [] || line[|line| - 1] != CR then line else Trimmed(line[..|line| - 1])
  }

  // A line as it is kept, if it is.
  function Kept(line: Bytes): seq<Bytes> { if Trimmed(line) == [] then [] else [Trimmed(line)] }

  // A line is kept without the carriage returns at its end, unless nothing else is in it.
  lemma KeptIs(line: Bytes)
    ensures (forall i :: 0 <= i < |line| ==> line[i] == 13) <==> Kept(line) == []
    ensures Kept(line) != [] ==> |Kept(line)| == 1 && Kept(line)[0] <= line && Kept(line)[0][|Kept(line)[0]| - 1] != 13
    ensures Kept(line) != [] ==> forall i :: |Kept(line)[0]| <= i < |line| ==> line[i] == 13
  {
  }

  // The lines of a text that are complete, and what follows its last newline.
  function Complete(t: Bytes): seq<Bytes>
    decreases |t|
  {
    var i := Newline(t);
    if i == |t| then [] else Kept(t[..i]) + Complete(t[i + 1..])
  }

  function Carry(t: Bytes): Bytes
    decreases |t|
  {
    var i := Newline(t);
    if i == |t| then t else Carry(t[i + 1..])
  }

  function Newest(lines: seq<Bytes>, max: nat): seq<Bytes> {
    if |lines| <= max then lines else lines[|lines| - max..]
  }

  lemma NewlineIs(t: Bytes, i: nat)
    requires i <= |t| && (forall k :: 0 <= k < i ==> t[k] != LF) && (i < |t| ==> t[i] == LF)
    ensures Newline(t) == i
  {
  }

  // Text already taken apart does not change what comes of the rest.
  lemma {:induction false} MoreText(t: Bytes, p: Bytes)
    ensures Complete(t + p) == Complete(t) + Complete(Carry(t) + p)
    ensures Carry(t + p) == Carry(Carry(t) + p)
    decreases |t|
  {
    var i := Newline(t);
    hide Newline, Kept;
    if i < |t| {
      NewlineIs(t + p, i);
      assert (t + p)[..i] == t[..i] && (t + p)[i + 1..] == t[i + 1..] + p;
      MoreText(t[i + 1..], p);
    }
  }

  // Lines written out one below the other are the lines that are kept, and nothing of the
  // rest is lost.
  function WrittenOut(lines: seq<Bytes>, rest: Bytes): Bytes {
    if lines == [] then rest else lines[0] + [LF] + WrittenOut(lines[1..], rest)
  }

  function AllKept(lines: seq<Bytes>): seq<Bytes> { if lines == [] then [] else Kept(lines[0]) + AllKept(lines[1..]) }

  lemma {:induction false} LinesComeBack(lines: seq<Bytes>, rest: Bytes)
    requires forall l :: l in lines ==> LF !in l
    requires LF !in rest
    ensures Complete(WrittenOut(lines, rest)) == AllKept(lines) && Carry(WrittenOut(lines, rest)) == rest
  {
    hide Newline, Kept;
    if lines == [] {
      NewlineIs(rest, |rest|);
    } else {
      var t, more := WrittenOut(lines, rest), WrittenOut(lines[1..], rest);
      assert lines[0] in lines && forall l :: l in lines[1..] ==> l in lines;
      NewlineIs(t, |lines[0]|);
      assert t[..|lines[0]|] == lines[0] && t[|lines[0]| + 1..] == more;
      LinesComeBack(lines[1..], rest);
    }
  }

  // ---- the ring ------------------------------------------------------------------------------------

  class RingBuffer {
    var lines: seq<Bytes>
    const max: nat
    var part: Bytes
    ghost var written: Bytes

    // The ring depends on all that was written, not on how it was cut.
    ghost predicate Valid()
      reads this
    {
      lines == Newest(Complete(written), max) && part == Carry(written)
    }

    constructor (max: nat)
      ensures Valid() && written == [] && this.max == max
    {
      this.max := max;
      lines, part, written := [], [], [];
    }

    method Write(p: Bytes) returns (n: nat)
      requires Valid()
      modifies this
      ensures Valid() && written == old(written) + p && n == |p|
    {
      hide Newline, Kept, Newest, Complete, Carry, Trimmed;
      MoreText(written, p);
      part := part + p;
      written := written + p;
      ghost var done := Complete(old(written));
      var idx := Newline(part);
      while idx < |part|
        invariant idx == Newline(part)
        invariant written == old(written) + p && lines == Newest(done, max)
        invariant done + Complete(part) == Complete(written) && Carry(part) == Carry(written)
        decreases |part|
      {
        NextLine(part, done, max);
        var line := Trimmed(part[..idx]);
        done := done + Kept(part[..idx]);
        part := part[idx + 1..];
        if line != [] {
          lines := lines + [line];
          if |lines| > max {
            lines := lines[|lines| - max..];
          }
        }
        idx := Newline(part);
      }
      NoLine(part, done);
      n := |p|;
    }

    method Snapshot() returns (out: seq<Bytes>)
      requires Valid()
      ensures |out| <= max && out == Newest(Complete(written), max)
      ensures |Complete(written)| >= max ==> |out| == max && out == Complete(written)[|Complete(written)| - max..]
      ensures |Complete(written)| < max ==> out == Complete(written)
    {
      out := lines;
    }
  }

  // One line taken off the carry and pushed onto the ring.
  lemma NextLine(part: Bytes, done: seq<Bytes>, max: nat)
    requires Newline(part) < |part|
    ensures var idx := Newline(part);
            var line, after, ring := Trimmed(part[..idx]), done + Kept(part[..idx]), Newest(done, max);
            && after + Complete(part[idx + 1..]) == done + Complete(part) && Carry(part[idx + 1..]) == Carry(part)
            && Newest(after, max) == if line == [] then ring else Pushed(ring, line, max)
  {
    var idx := Newline(part);
    hide Newline, Trimmed, Newest, Pushed;
    Assoc(done, Kept(part[..idx]), Complete(part[idx + 1..]));
    PushedIsNewest(done, Trimmed(part[..idx]), max);
    assert done + [] == done;
  }

  function Pushed(ring: seq<Bytes>, line: Bytes, max: nat): seq<Bytes> {
    if |ring| + 1 > max then (ring + [line])[|ring| + 1 - max..] else ring + [line]
  }

  lemma PushedIsNewest(done: seq<Bytes>, line: Bytes, max: nat)
    ensures Newest(done + [line], max) == Pushed(Newest(done, max), line, max)
  {
  }

  lemma Assoc(a: seq<Bytes>, b: seq<Bytes>, c: seq<Bytes>)
    ensures a + b + c == a + (b + c)
  {
  }

  lemma NoLine(part: Bytes, done: seq<Bytes>)
    requires Newline(part) == |part|
    ensures done + Complete(part) == done && Carry(part) == part
  {
    hide Newline;
  }
}
