// The dots of the start screen: how many of each colour, and how they are mixed.
module Dots {

  datatype State = Danger | Warn | Off | Ok
  datatype Mix = Mix(ok: nat, warn: nat, danger: nat, off: nat)

  const KEYS: seq<State> := [Danger, Warn, Off, Ok]

  function Share(mix: Mix, k: State): nat {
    match k
    case Danger => mix.danger
    case Warn => mix.warn
    case Off => mix.off
    case Ok => mix.ok
  }

  function Total(mix: Mix): nat { mix.danger + mix.warn + mix.off + mix.ok }

  // How many states occur.
  function Kinds(mix: Mix): nat {
    (if mix.danger > 0 then 1 else 0) + (if mix.warn > 0 then 1 else 0) + (if mix.off > 0 then 1 else 0) + (if mix.ok > 0 then 1 else 0)
  }

  // ---- the generator ---------------------------------------------------------------------------

  const MODULUS: nat := 2147483647
  const FACTOR: nat := 16807

  function NextSeed(s: nat): nat { (s * FACTOR) % MODULUS }

  // 16807 has an inverse modulo 2147483647, so only multiples of the modulus end at zero.
  lemma SeedStaysInRangeIff(s: nat)
    ensures 1 <= NextSeed(s) <= MODULUS - 1 <==> s % MODULUS != 0
  {
    var q := s * FACTOR / MODULUS;
    assert s * FACTOR == q * MODULUS + NextSeed(s);
    if NextSeed(s) == 0 {
      Inverse(s, q);
    }
    if s % MODULUS == 0 {
      Multiple(s);
    }
  }

  // 16807 * 1407677000 == 1 + 2147483647 * 11017.
  lemma Inverse(s: nat, q: nat)
    requires s * FACTOR == q * MODULUS
    ensures s % MODULUS == 0
  {
    var c := q * 1407677000 - s * 11017;
    assert s == MODULUS * c;
    MultipleOf(s, c);
  }

  lemma MultipleOf(s: nat, c: int)
    requires s == MODULUS * c
    ensures s % MODULUS == 0
  {
  }

  lemma Multiple(s: nat)
    requires s % MODULUS == 0
    ensures (s * FACTOR) % MODULUS == 0
  {
    var d := s / MODULUS;
    assert s == MODULUS * d;
    MultipleOf(s * FACTOR, d * FACTOR);
  }

  // The generator as the screen uses it: a whole number below `bound` at a time.
  class Rng {
    var s: nat

    constructor (seed: nat)
      requires seed % MODULUS != 0
      ensures s == seed
    {
      s := seed;
    }

    method Below(bound: nat) returns (j: nat)
      requires s % MODULUS != 0 && bound > 0
      modifies this
      ensures s == NextSeed(old(s)) && s % MODULUS != 0
      ensures j == Drawn(s, bound) && j < bound
    {
      DrawnInRange(s, bound);
      s := (s * FACTOR) % MODULUS;
      j := (s - 1) * bound / (MODULUS - 1);
    }
  }

  // A seed scaled to a whole number below `bound`.
  function Drawn(s: nat, bound: nat): int { (s - 1) * bound / (MODULUS - 1) }

  // The generator multiplies by 16,807 modulo 2^31 - 1, and a draw is its state, less one, as a
  // share of 2^31 - 2, of the bound, rounded down.
  lemma DrawnIs(s: nat, bound: nat)
    requires s > 0
    ensures NextSeed(s) == s * 16807 % 2147483647
    ensures Drawn(s, bound) * 2147483646 <= (s - 1) * bound < (Drawn(s, bound) + 1) * 2147483646
  {
  }

  lemma DrawnInRange(s: nat, bound: nat)
    requires s % MODULUS != 0 && bound > 0
    ensures NextSeed(s) % MODULUS != 0 && 0 <= Drawn(NextSeed(s), bound) < bound
  {
    SeedStaysInRangeIff(s);
    var a := NextSeed(s) - 1;
    Product(a, MODULUS - 2, bound);
    Product(0, a, bound);
    hide NextSeed;
    var q := a * bound / (MODULUS - 1);
    assert q * (MODULUS - 1) <= a * bound;
  }

  lemma Product(a: int, b: int, c: nat)
    ensures a <= b ==> a * c <= b * c
  {
    if a <= b { assert (b - a) * c >= 0; }
  }

  // ---- sharing out the dots -----------------------------------------------------------------------

  function RoundedShare(share: nat, total: nat, n: nat): nat
    requires total > 0
  {
    (2 * share * n + total) / (2 * total)
  }

  function FirstCount(share: nat, total: nat, n: nat): nat
    requires total > 0
  {
    if share == 0 then 0 else if RoundedShare(share, total, n) < 1 then 1 else RoundedShare(share, total, n)
  }

  function Sum(c: seq<int>): int
    requires |c| == 4
  {
    c[0] + c[1] + c[2] + c[3]
  }

  ghost predicate IsFirst(mix: Mix, n: nat, c: seq<int>)
    requires Total(mix) > 0
  {
    |c| == 4 && forall i :: 0 <= i < 4 ==> c[i] == FirstCount(Share(mix, KEYS[i]), Total(mix), n)
  }

  // Off the exact share by less than one dot.
  lemma FirstCountIsClose(share: nat, total: nat, n: nat)
    requires total > 0 && n > 0
    ensures var c := FirstCount(share, total, n); 0 - total < 2 * (c * total - share * n) && c * total - share * n < total
  {
    var p, r := share * n, RoundedShare(share, total, n);
    assert 2 * share * n == 2 * p;
    var t := 2 * total;
    assert 2 * p + total == r * t + (2 * p + total) % t;
    assert r * t == 2 * (r * total);
    if share > 0 { assert p >= n > 0; } else { assert p == 0; }
  }

  // So all counts together are off by three at most.
  lemma FirstCountsAreClose(mix: Mix, n: nat, c: seq<int>)
    requires Total(mix) > 0 && n > 0 && IsFirst(mix, n, c)
    ensures -3 <= Sum(c) - n <= 3
  {
    var t := Total(mix);
    hide FirstCount;
    assert Share(mix, KEYS[0]) == mix.danger && Share(mix, KEYS[1]) == mix.warn && Share(mix, KEYS[2]) == mix.off && Share(mix, KEYS[3]) == mix.ok;
    FirstCountIsClose(mix.danger, t, n);
    FirstCountIsClose(mix.warn, t, n);
    FirstCountIsClose(mix.off, t, n);
    FirstCountIsClose(mix.ok, t, n);
    FourClose(c[0], c[1], c[2], c[3], mix.danger, mix.warn, mix.off, mix.ok, t, n);
  }

  lemma FourClose(c0: int, c1: int, c2: int, c3: int, s0: nat, s1: nat, s2: nat, s3: nat, t: int, n: int)
    requires t == s0 + s1 + s2 + s3 && t > 0
    requires 0 - t < 2 * (c0 * t - s0 * n) && c0 * t - s0 * n < t
    requires 0 - t < 2 * (c1 * t - s1 * n) && c1 * t - s1 * n < t
    requires 0 - t < 2 * (c2 * t - s2 * n) && c2 * t - s2 * n < t
    requires 0 - t < 2 * (c3 * t - s3 * n) && c3 * t - s3 * n < t
    ensures -3 <= c0 + c1 + c2 + c3 - n <= 3
  {
    var d := c0 + c1 + c2 + c3 - n;
    assert s0 * n + s1 * n + s2 * n + s3 * n == t * n;
    assert d * t == c0 * t + c1 * t + c2 * t + c3 * t - t * n;
    Product(4, d, t);
    Product(d, -4, t);
  }

  // The first of the largest counts.
  method Largest(c: array<int>) returns (i: nat)
    requires c.Length == 4
    ensures i < 4 && forall j :: 0 <= j < 4 ==> c[j] <= c[i]
    ensures forall j :: 0 <= j < i ==> c[j] < c[i]
  {
    i := 0;
    for j := 1 to 4
      invariant i < j && forall m :: 0 <= m < j ==> c[m] <= c[i]
      invariant forall m :: 0 <= m < i ==> c[m] < c[i]
    {
      if c[j] > c[i] { i := j; }
    }
  }

  // Counts on their way from the rounded shares to n in all.
  ghost predicate OnTheWay(mix: Mix, n: nat, c: seq<int>)
  {
    && |c| == 4 && Total(mix) > 0
    && (forall i :: 0 <= i < 4 ==> c[i] >= 0 && (Share(mix, KEYS[i]) == 0 ==> c[i] == 0))
    && (n >= Kinds(mix) ==> forall i :: 0 <= i < 4 && Share(mix, KEYS[i]) > 0 ==> c[i] >= 1)
    && (forall i :: 0 <= i < 4 ==> Abs(c[i] - FirstCount(Share(mix, KEYS[i]), Total(mix), n)) + Abs(Sum(c) - n) <= 3)
    && Sum(c) > 0
  }

  function Abs(x: int): nat { if x < 0 then -x else x }

  lemma FirstOnTheWay(mix: Mix, n: nat, c: seq<int>)
    requires Total(mix) > 0 && n > 0 && IsFirst(mix, n, c)
    ensures OnTheWay(mix, n, c)
  {
    FirstCountsAreClose(mix, n, c);
    hide RoundedShare, Total;
    assert Share(mix, KEYS[0]) == mix.danger && Share(mix, KEYS[1]) == mix.warn && Share(mix, KEYS[2]) == mix.off && Share(mix, KEYS[3]) == mix.ok;
    assert Total(mix) > 0 ==> mix.danger + mix.warn + mix.off + mix.ok > 0 by { TotalIs(mix); }
  }

  lemma TotalIs(mix: Mix)
    ensures Total(mix) == mix.danger + mix.warn + mix.off + mix.ok
  {
  }

  // The largest count is positive, and by the pigeonhole principle at least two where there
  // are more dots than wanted and enough wanted for every state.
  lemma LargestIsEnough(mix: Mix, n: nat, c: seq<int>, i: nat)
    requires OnTheWay(mix, n, c)
    requires i < 4 && forall j :: 0 <= j < 4 ==> c[j] <= c[i]
    ensures c[i] >= 1 && (n >= Kinds(mix) && Sum(c) > n ==> c[i] >= 2)
  {
    hide FirstCount, Total, Abs;
    assert Share(mix, KEYS[0]) == mix.danger && Share(mix, KEYS[1]) == mix.warn && Share(mix, KEYS[2]) == mix.off && Share(mix, KEYS[3]) == mix.ok;
  }

  lemma SumMoves(c: seq<int>, i: nat, step: int)
    requires |c| == 4 && i < 4
    ensures Sum(c[i := c[i] + step]) == Sum(c) + step
  {
  }

  // One correction, on the largest count.
  lemma Corrected(mix: Mix, n: nat, c: seq<int>, i: nat)
    requires OnTheWay(mix, n, c) && n > 0 && Sum(c) != n
    requires i < 4 && forall j :: 0 <= j < 4 ==> c[j] <= c[i]
    ensures var d := c[i := c[i] + if Sum(c) > n then -1 else 1];
            OnTheWay(mix, n, d) && Abs(Sum(d) - n) == Abs(Sum(c) - n) - 1 && Sum(d) == Sum(c) + if Sum(c) > n then -1 else 1
  {
    hide FirstCount, Total, Share, Kinds, Sum;
    LargestIsEnough(mix, n, c, i);
    SumMoves(c, i, if Sum(c) > n then -1 else 1);
  }

  method SharedOut(n: nat, mix: Mix) returns (counts: array<int>)
    requires n > 0 && Total(mix) > 0
    ensures fresh(counts) && OnTheWay(mix, n, counts[..]) && Sum(counts[..]) == n
  {
    hide Total, RoundedShare, Share;
    counts := new int[4];
    var total := Total(mix);
    for i := 0 to 4
      invariant forall k :: 0 <= k < i ==> counts[k] == FirstCount(Share(mix, KEYS[k]), total, n)
    {
      var share := Share(mix, KEYS[i]);
      counts[i] := if share > 0 then (if RoundedShare(share, total, n) < 1 then 1 else RoundedShare(share, total, n)) else 0;
    }
    FirstOnTheWay(mix, n, counts[..]);
    FixRounding(n, mix, counts);
  }

  // Fix rounding on the largest group so the counts add up to n exactly.
  method FixRounding(n: nat, mix: Mix, counts: array<int>)
    requires n > 0 && OnTheWay(mix, n, counts[..]) && counts.Length == 4
    modifies counts
    ensures OnTheWay(mix, n, counts[..]) && Sum(counts[..]) == n
  {
    hide OnTheWay;
    var sum := counts[0] + counts[1] + counts[2] + counts[3];
    while sum != n
      invariant sum == Sum(counts[..]) && OnTheWay(mix, n, counts[..])
      decreases Abs(sum - n)
    {
      var i := Largest(counts);
      Corrected(mix, n, counts[..], i);
      ghost var was := counts[..];
      var step := if sum > n then -1 else 1;
      counts[i] := counts[i] + step;
      assert counts[..] == was[i := was[i] + step];
      sum := sum + step;
    }
  }

  // ---- the colours ---------------------------------------------------------------------------------------

  function Repeated(k: State, n: nat): seq<State> { seq(n, _ => k) }

  lemma {:induction false} RepeatedCount(k: State, n: nat)
    ensures multiset(Repeated(k, n))[k] == n && forall o :: o != k ==> multiset(Repeated(k, n))[o] == 0
  {
    if n == 0 {
      assert Repeated(k, n) == [];
    } else {
      assert Repeated(k, n) == Repeated(k, n - 1) + [k];
      RepeatedCount(k, n - 1);
    }
  }

  ghost function Laid(counts: seq<int>, upTo: nat): seq<State>
    requires |counts| == 4 && upTo <= 4 && forall i :: 0 <= i < 4 ==> counts[i] >= 0
  {
    if upTo == 0 then [] else Laid(counts, upTo - 1) + Repeated(KEYS[upTo - 1], counts[upTo - 1])
  }

  ghost function CountOf(s: seq<State>, k: State): nat { multiset(s)[k] }

  lemma LaidCount(counts: seq<int>)
    requires |counts| == 4 && forall i :: 0 <= i < 4 ==> counts[i] >= 0
    ensures |Laid(counts, 4)| == Sum(counts)
    ensures forall i :: 0 <= i < 4 ==> CountOf(Laid(counts, 4), KEYS[i]) == counts[i]
  {
    hide Laid, CountOf;
    LaidNone(counts);
    LaidUpTo(counts, 1, Danger);
    LaidUpTo(counts, 2, Warn);
    LaidUpTo(counts, 3, Off);
    LaidUpTo(counts, 4, Ok);
    assert KEYS[0] == Danger && KEYS[1] == Warn && KEYS[2] == Off && KEYS[3] == Ok;
  }

  lemma LaidNone(counts: seq<int>)
    requires |counts| == 4 && forall i :: 0 <= i < 4 ==> counts[i] >= 0
    ensures |Laid(counts, 0)| == 0 && forall k :: CountOf(Laid(counts, 0), k) == 0
  {
  }

  lemma LaidUpTo(counts: seq<int>, upTo: nat, k: State)
    requires |counts| == 4 && forall i :: 0 <= i < 4 ==> counts[i] >= 0
    requires 0 < upTo <= 4 && k == KEYS[upTo - 1]
    ensures |Laid(counts, upTo)| == |Laid(counts, upTo - 1)| + counts[upTo - 1]
    ensures forall o :: CountOf(Laid(counts, upTo), o) == CountOf(Laid(counts, upTo - 1), o) + if o == k then counts[upTo - 1] else 0
  {
    RepeatedCount(k, counts[upTo - 1]);
    assert |Repeated(k, counts[upTo - 1])| == counts[upTo - 1];
    hide Repeated;
    var before, more := Laid(counts, upTo - 1), Repeated(k, counts[upTo - 1]);
    assert multiset(before + more) == multiset(before) + multiset(more);
  }

  function Swap(s: seq<State>, i: nat, j: nat): seq<State>
    requires i < |s| && j < |s|
  {
    s[i := s[j]][j := s[i]]
  }

  // Every place from i down trades with one drawn from those not yet settled, its own included.
  ghost function Mixed(s: seq<State>, i: int, seed: nat): seq<State>
    requires i < |s| && seed % MODULUS != 0
    decreases i
  {
    if i <= 0 then s
    else (DrawnInRange(seed, i + 1); Mixed(Swap(s, i, Drawn(NextSeed(seed), i + 1)), i - 1, NextSeed(seed)))
  }

  lemma {:induction false} MixedIsAPermutation(s: seq<State>, i: int, seed: nat)
    requires i < |s| && seed % MODULUS != 0
    ensures multiset(Mixed(s, i, seed)) == multiset(s)
    decreases i
  {
    hide NextSeed, Drawn;
    if i > 0 {
      DrawnInRange(seed, i + 1);
      var j := Drawn(NextSeed(seed), i + 1);
      assert multiset(Swap(s, i, j)) == multiset(s);
      MixedIsAPermutation(Swap(s, i, j), i - 1, NextSeed(seed));
    }
  }

  method Shuffle(out: array<State>, r: Rng)
    requires r.s % MODULUS != 0
    modifies out, r
    ensures out[..] == Mixed(old(out[..]), out.Length - 1, old(r.s))
  {
    hide NextSeed, Drawn;
    var i := out.Length - 1;
    while i > 0
      invariant i < out.Length && r.s % MODULUS != 0
      invariant Mixed(out[..], i, r.s) == Mixed(old(out[..]), out.Length - 1, old(r.s))
    {
      ghost var was := out[..];
      var j := r.Below(i + 1);
      out[i], out[j] := out[j], out[i];
      assert out[..] == Swap(was, i, j);
      i := i - 1;
    }
  }

  method Lay(counts: array<int>) returns (laid: seq<State>)
    requires counts.Length == 4 && forall k :: 0 <= k < 4 ==> counts[k] >= 0
    ensures laid == Laid(counts[..], 4)
  {
    laid := [];
    for i := 0 to 4
      invariant laid == Laid(counts[..], i)
    {
      ghost var before := laid;
      for j := 0 to counts[i]
        invariant laid == before + Repeated(KEYS[i], j)
      {
        laid := laid + [KEYS[i]];
      }
    }
  }

  // So many of each state, laid out in order and mixed by the draws that begin with seed 7.
  ghost predicate IsSpread(mix: Mix, n: int, counts: seq<int>, out: seq<State>) {
    n > 0 && OnTheWay(mix, n, counts) && Sum(counts) == n && |Laid(counts, 4)| == n && out == Mixed(Laid(counts, 4), n - 1, 7)
  }

  method Spread(n: nat, mix: Mix) returns (out: seq<State>, ghost counts: seq<int>)
    requires n > 0 && Total(mix) > 0
    ensures IsSpread(mix, n, counts, out) && |out| == n
    ensures OnTheWay(mix, n, counts) && Sum(counts) == n && forall i :: 0 <= i < 4 ==> CountOf(out, KEYS[i]) == counts[i]
  {
    hide Share, Kinds, Abs, Mixed;
    var shares := SharedOut(n, mix);
    counts := shares[..];
    var laid := Lay(shares);
    LaidCount(counts);
    out := Shuffled(laid);
  }

  // n dots in the mix's colours: no colour that does not occur, each within four of its exact
  // share, and every one that occurs exactly if there are dots for them all.
  method AssignDotStates(n: int, mix: Mix) returns (out: seq<State>)
    ensures n <= 0 ==> out == []
    ensures n > 0 ==> |out| == n
    ensures n > 0 && Total(mix) == 0 ==> forall i :: 0 <= i < n ==> out[i] == Ok
    ensures n > 0 && mix.danger + mix.warn + mix.off + mix.ok > 0 ==> exists counts :: IsSpread(mix, n, counts, out)
    ensures n > 0 && Total(mix) > 0 ==> forall k :: k in out ==> Share(mix, k) > 0
    ensures n > 0 && Total(mix) > 0 ==> ((forall k :: Share(mix, k) > 0 ==> k in out) <==> n >= Kinds(mix))
    ensures n > 0 && Total(mix) > 0 ==> forall k :: Abs(multiset(out)[k] * Total(mix) - Share(mix, k) * n) < 4 * Total(mix)
  {
    if n <= 0 {
      out := [];
    } else if Total(mix) == 0 {
      out := Repeated(Ok, n);
    } else {
      ghost var counts;
      out, counts := Spread(n, mix);
      Coloured(n, mix, counts, out);
    }
  }

  method Shuffled(laid: seq<State>) returns (out: seq<State>)
    ensures multiset(out) == multiset(laid) && |out| == |laid|
    ensures out == Mixed(laid, |laid| - 1, 7)
  {
    var dots := new State[|laid|](i requires 0 <= i < |laid| => laid[i]);
    assert dots[..] == laid;
    var r := new Rng(7);
    MixedIsAPermutation(laid, |laid| - 1, 7);
    Shuffle(dots, r);
    out := dots[..];
    assert |multiset(out)| == |multiset(laid)|;
  }

  lemma Coloured(n: nat, mix: Mix, counts: seq<int>, out: seq<State>)
    requires n > 0 && OnTheWay(mix, n, counts) && Sum(counts) == n
    requires forall i :: 0 <= i < 4 ==> CountOf(out, KEYS[i]) == counts[i]
    ensures forall k :: k in out ==> Share(mix, k) > 0
    ensures (forall k :: Share(mix, k) > 0 ==> k in out) <==> n >= Kinds(mix)
    ensures forall k :: Abs(multiset(out)[k] * Total(mix) - Share(mix, k) * n) < 4 * Total(mix)
  {
    assert KEYS[0] == Danger && KEYS[1] == Warn && KEYS[2] == Off && KEYS[3] == Ok;
    assert forall k :: k in out <==> multiset(out)[k] > 0;
    forall k
      ensures Abs(multiset(out)[k] * Total(mix) - Share(mix, k) * n) < 4 * Total(mix)
    {
      var i := match k case Danger => 0 case Warn => 1 case Off => 2 case Ok => 3;
      assert KEYS[i] == k;
      CloseEnough(counts[i], Share(mix, k), Total(mix), n);
    }
    hide FirstCount, Total;
  }

  lemma CloseEnough(c: int, share: nat, total: nat, n: nat)
    requires total > 0 && n > 0 && Abs(c - FirstCount(share, total, n)) <= 3
    ensures Abs(c * total - share * n) < 4 * total
  {
    var f := FirstCount(share, total, n);
    FirstCountIsClose(share, total, n);
    hide FirstCount;
    Product(c - f, 3, total);
    Product(-3, c - f, total);
    assert c * total == (c - f) * total + f * total;
  }

  // One dot for two states: one of them has none.
  method OneDotForTwoStates() returns (out: seq<State>)
    ensures |out| == 1 && (Danger !in out || Ok !in out)
  {
    var mix := Mix(1, 0, 1, 0);
    out := AssignDotStates(1, mix);
    assert Kinds(mix) == 2 && Share(mix, Danger) > 0 && Share(mix, Ok) > 0;
  }
}
