/** The statistics two programs compute by unrelated loops: the area under the ROC curve and the exact McNemar
    test. The reference definitions come first; each loop is proved against them. */
module Stats {
  import opened Options

  // ---- sums -----------------------------------------------------------------------------------------------

  function Sum<T>(xs: seq<T>, f: T -> int): int { if xs == [] then 0 else f(xs[0]) + Sum(xs[1..], f) }

  lemma {:induction false} SumConcat<T>(a: seq<T>, b: seq<T>, f: T -> int)
    ensures Sum(a + b, f) == Sum(a, f) + Sum(b, f)
  {
    if a == [] {
      assert a + b == b;
    } else {
      SumConcat(a[1..], b, f);
      assert (a + b)[1..] == a[1..] + b;
    }
  }

  lemma {:induction false} SumAgree<T>(xs: seq<T>, f: T -> int, g: T -> int)
    requires forall i :: 0 <= i < |xs| ==> f(xs[i]) == g(xs[i])
    ensures Sum(xs, f) == Sum(xs, g)
  {
    if xs != [] { SumAgree(xs[1..], f, g); }
  }

  lemma WithoutBag<T>(u: seq<T>, x: T, w: seq<T>)
    ensures multiset(u + w) == multiset(u + ([x] + w)) - multiset{x}
  {
    assert multiset(u + ([x] + w)) == multiset(u) + (multiset{x} + multiset(w));
  }

  lemma Without<T>(u: seq<T>, x: T, w: seq<T>, f: T -> int)
    ensures Sum(u + ([x] + w), f) == f(x) + Sum(u + w, f)
  {
    SumConcat(u, w, f);
    SumConcat(u, [x] + w, f);
    assert ([x] + w)[1..] == w;
  }

  lemma HeadBag<T>(a: seq<T>)
    requires a != []
    ensures a[0] in multiset(a) && multiset(a[1..]) == multiset(a) - multiset{a[0]}
  {
    assert a == [] + ([a[0]] + a[1..]) && [] + a[1..] == a[1..];
    WithoutBag([], a[0], a[1..]);
  }

  lemma Pick<T>(b: seq<T>, x: T) returns (u: seq<T>, w: seq<T>)
    requires x in multiset(b)
    ensures b == u + ([x] + w)
  {
    var i :| 0 <= i < |b| && b[i] == x;
    u, w := b[..i], b[i + 1..];
  }

  /** A sum does not depend on the order. */
  lemma {:induction false} SumPermuted<T>(a: seq<T>, b: seq<T>, f: T -> int)
    requires multiset(a) == multiset(b)
    ensures Sum(a, f) == Sum(b, f)
  {
    if a == [] {
      assert |b| == |multiset(b)| == 0;
    } else {
      HeadBag(a);
      var u, w := Pick(b, a[0]);
      WithoutBag(u, a[0], w);
      Without(u, a[0], w, f);
      SumPermuted(a[1..], u + w, f);
    }
  }

  lemma {:induction false} SumConstant<T>(xs: seq<T>, f: T -> int, c: int)
    requires forall i :: 0 <= i < |xs| ==> f(xs[i]) == c
    ensures Sum(xs, f) == c * |xs|
  {
    if xs != [] {
      SumConstant(xs[1..], f, c);
      assert c * |xs| == c + c * (|xs| - 1);
    }
  }

  // ---- pairs ----------------------------------------------------------------------------------------------

  /** Two for a win of `p` over `x`, one for a tie. */
  function Score(p: real, x: real): int { if x < p then 2 else if x == p then 1 else 0 }

  function Beats(p: real): real -> int { x => Score(p, x) }

  function Against(xs: seq<real>): real -> int { p => Sum(xs, Beats(p)) }

  /** Twice the number of pairs won plus the pairs tied. */
  function Wins(ps: seq<real>, xs: seq<real>): int { Sum(ps, Against(xs)) }

  /** The definition: the share of pairs (positive, negative) in which the positive is higher, ties counting half. */
  function Auc(pos: seq<real>, neg: seq<real>): real
    requires pos != [] && neg != []
  {
    Wins(pos, neg) as real / 2.0 / (|pos| * |neg|) as real
  }

  /** One more negative adds its own column. */
  lemma {:induction false} WinsColumn(xs: seq<real>, ps: seq<real>)
    requires ps != []
    ensures Wins(xs, ps) == Wins(xs, [ps[0]]) + Wins(xs, ps[1..])
  {
    if xs != [] {
      WinsColumn(xs[1..], ps);
      assert Sum([ps[0]], Beats(xs[0])) == Score(xs[0], ps[0]);
    }
  }

  lemma {:induction false} OneBothWays(p: real, xs: seq<real>)
    ensures Sum(xs, Beats(p)) + Wins(xs, [p]) == 2 * |xs|
  {
    if xs != [] {
      OneBothWays(p, xs[1..]);
      assert Sum([p], Beats(xs[0])) == Score(xs[0], p);
    }
  }

  /** Every pair is won one way, or tied. */
  lemma {:induction false} WinsBothWays(ps: seq<real>, xs: seq<real>)
    ensures Wins(ps, xs) + Wins(xs, ps) == 2 * (|ps| * |xs|)
  {
    if ps == [] {
      forall p ensures Sum(ps, Beats(p)) == 0 {}
      SumConstant(xs, Against(ps), 0);
    } else {
      WinsBothWays(ps[1..], xs);
      WinsColumn(xs, ps);
      OneBothWays(ps[0], xs);
      assert |ps| * |xs| == |xs| + (|ps| - 1) * |xs|;
    }
  }

  /** The area is a probability, and swapping the classes complements it. */
  lemma AucComplement(pos: seq<real>, neg: seq<real>)
    requires pos != [] && neg != []
    ensures Auc(pos, neg) + Auc(neg, pos) == 1.0 && 0.0 <= Auc(pos, neg) <= 1.0
  {
    WinsBothWays(pos, neg);
    WinsNonNegative(pos, neg);
    WinsNonNegative(neg, pos);
    var n := (|pos| * |neg|) as real;
    PositiveProduct(|pos|, |neg|);
    assert |pos| * |neg| == |neg| * |pos|;
    Halves(Wins(pos, neg), Wins(neg, pos), |pos| * |neg|);
  }

  lemma PositiveProduct(a: int, b: int)
    requires a > 0 && b > 0
    ensures a * b > 0
  {}

  lemma Halves(a: int, b: int, n: int)
    requires n > 0 && a + b == 2 * n && a >= 0 && b >= 0
    ensures a as real / 2.0 / n as real + b as real / 2.0 / n as real == 1.0
    ensures 0.0 <= a as real / 2.0 / n as real <= 1.0
  {
    var x, y := a as real / 2.0, b as real / 2.0;
    assert x + y == n as real;
    assert x / n as real + y / n as real == (x + y) / n as real;
  }

  lemma {:induction false} SumNonNegative<T>(xs: seq<T>, f: T -> int)
    requires forall x :: f(x) >= 0
    ensures Sum(xs, f) >= 0
  {
    if xs != [] { SumNonNegative(xs[1..], f); }
  }

  lemma WinsNonNegative(ps: seq<real>, xs: seq<real>)
    ensures Wins(ps, xs) >= 0
  {
    forall p ensures Sum(xs, Beats(p)) >= 0 { SumNonNegative(xs, Beats(p)); }
    SumNonNegative(ps, Against(xs));
  }

  // ---- ranks in a sorted sequence ---------------------------------------------------------------------------

  /** `v` against a sequence whose first `i` elements are below it, whose next `j - i` tie it, and whose rest are above. */
  lemma Blocks(xs: seq<real>, i: nat, j: nat, v: real)
    requires i <= j <= |xs|
    requires (forall k :: 0 <= k < i ==> xs[k] < v) && (forall k :: i <= k < j ==> xs[k] == v)
    requires forall k :: j <= k < |xs| ==> xs[k] > v
    ensures Sum(xs, Beats(v)) == 2 * i + (j - i)
  {
    var a, b, c := xs[..i], xs[i..j], xs[j..];
    assert xs == a + (b + c);
    SumConcat(a, b + c, Beats(v));
    SumConcat(b, c, Beats(v));
    SumConstant(a, Beats(v), 2);
    SumConstant(b, Beats(v), 1);
    SumConstant(c, Beats(v), 0);
  }

  predicate Ascending(xs: seq<real>) { forall i, j :: 0 <= i < j < |xs| ==> xs[i] <= xs[j] }

  ghost predicate AscendingBy<T>(xs: seq<T>, key: T -> real) { forall i, j :: 0 <= i < j < |xs| ==> key(xs[i]) <= key(xs[j]) }

  lemma InsertedAt<T>(r: seq<T>, i: nat, x: T, key: T -> real)
    requires AscendingBy(r, key) && i <= |r|
    requires (forall k :: 0 <= k < i ==> key(r[k]) <= key(x)) && (i < |r| ==> key(r[i]) > key(x))
    ensures AscendingBy(r[..i] + [x] + r[i..], key)
    ensures multiset(r[..i] + [x] + r[i..]) == multiset(r) + multiset{x}
  {
    assert r == r[..i] + r[i..];
    assert multiset(r[..i] + [x] + r[i..]) == multiset(r[..i]) + multiset{x} + multiset(r[i..]);
    forall k | i <= k < |r| ensures key(r[k]) > key(x) {
      assert key(r[i]) <= key(r[k]);
    }
  }

  method InsertSorted<T>(r: seq<T>, x: T, key: T -> real) returns (r': seq<T>)
    requires AscendingBy(r, key)
    ensures AscendingBy(r', key) && multiset(r') == multiset(r) + multiset{x} && |r'| == |r| + 1
  {
    var i := 0;
    while i < |r| && key(r[i]) <= key(x)
      invariant i <= |r| && forall k :: 0 <= k < i ==> key(r[k]) <= key(x)
    {
      i := i + 1;
    }
    InsertedAt(r, i, x, key);
    r' := r[..i] + [x] + r[i..];
  }

  /** Stands for the library sort. */
  method SortBy<T>(xs: seq<T>, key: T -> real) returns (r: seq<T>)
    ensures AscendingBy(r, key) && multiset(r) == multiset(xs) && |r| == |xs|
  {
    hide AscendingBy;
    r := [];
    assert AscendingBy(r, key) by { NothingAscends(r, key); }
    var n := 0;
    while n < |xs|
      invariant n <= |xs| && |r| == n && AscendingBy(r, key) && multiset(r) == multiset(xs[..n])
    {
      assert xs[..n + 1] == xs[..n] + [xs[n]];
      r := InsertSorted(r, xs[n], key);
      n := n + 1;
    }
    assert xs[..n] == xs;
  }

  lemma NothingAscends<T>(r: seq<T>, key: T -> real)
    requires r == []
    ensures AscendingBy(r, key)
  {}

  /** The library's `partition_point` for "below `v`" or "not above `v`": a binary search. */
  method PartitionPoint(xs: seq<real>, v: real, orEqual: bool) returns (k: nat)
    requires Ascending(xs)
    ensures k <= |xs| && (forall i :: 0 <= i < k ==> xs[i] < v || (orEqual && xs[i] == v))
    ensures forall i :: k <= i < |xs| ==> !(xs[i] < v || (orEqual && xs[i] == v))
  {
    var lo, hi := 0, |xs|;
    while lo < hi
      invariant lo <= hi <= |xs|
      invariant forall i :: 0 <= i < lo ==> xs[i] < v || (orEqual && xs[i] == v)
      invariant forall i :: hi <= i < |xs| ==> !(xs[i] < v || (orEqual && xs[i] == v))
    {
      var mid := (lo + hi) / 2;
      if xs[mid] < v || (orEqual && xs[mid] == v) {
        lo := mid + 1;
      } else {
        hi := mid;
      }
    }
    k := lo;
  }

  /** The calibration crate's area: for every positive, two partition points in the sorted negatives. `None` is NaN. */
  method RocAucByPartition(pos: seq<real>, neg: seq<real>) returns (r: Option<real>)
    ensures r == if pos == [] || neg == [] then None else Some(Auc(pos, neg))
  {
    if pos == [] || neg == [] { return None; }
    var sorted := SortBy(neg, (x: real) => x);
    assert Ascending(sorted);
    var acc, i := 0.0, 0;
    while i < |pos|
      invariant i <= |pos| && 2.0 * acc == Wins(pos[..i], neg) as real
    {
      var p := pos[i];
      var below := PartitionPoint(sorted, p, false);
      var notAbove := PartitionPoint(sorted, p, true);
      RowOf(sorted, neg, p, below, notAbove);
      SumConcat(pos[..i], [p], Against(neg));
      assert pos[..i + 1] == pos[..i] + [p];
      acc := acc + (below as real + 0.5 * (notAbove - below) as real);
      i := i + 1;
    }
    assert pos[..i] == pos;
    RealProduct(|pos|, |neg|);
    assert acc == Wins(pos, neg) as real / 2.0;
    var pairs := |pos| as real * |neg| as real;
    assert pairs == (|pos| * |neg|) as real;
    return Some(acc / pairs);
  }

  lemma {:induction false} RealProduct(a: nat, b: nat)
    ensures (a * b) as real == a as real * b as real
  {
    if a > 0 {
      RealProduct(a - 1, b);
      assert a * b == (a - 1) * b + b;
    }
  }

  /** The two partition points give a positive's row. */
  lemma RowOf(sorted: seq<real>, neg: seq<real>, p: real, below: nat, notAbove: nat)
    requires Ascending(sorted) && multiset(sorted) == multiset(neg) && below <= |sorted| && notAbove <= |sorted|
    requires (forall i :: 0 <= i < below ==> sorted[i] < p) && (forall i :: below <= i < |sorted| ==> sorted[i] >= p)
    requires (forall i :: 0 <= i < notAbove ==> sorted[i] <= p) && (forall i :: notAbove <= i < |sorted| ==> sorted[i] > p)
    ensures below <= notAbove && Sum([p], Against(neg)) == 2 * below + (notAbove - below)
  {
    var probe := if notAbove < |sorted| then sorted[notAbove] else p;
    Blocks(sorted, below, notAbove, p);
    SumPermuted(sorted, neg, Beats(p));
  }

  // ---- the rank-sum algorithm -------------------------------------------------------------------------------

  datatype Scored = Scored(v: real, positive: bool)

  function Labelled(xs: seq<real>, positive: bool): (r: seq<Scored>)
    ensures |r| == |xs| && forall i :: 0 <= i < |xs| ==> r[i] == Scored(xs[i], positive)
  {
    seq(|xs|, i requires 0 <= i < |xs| => Scored(xs[i], positive))
  }

  function Values(s: seq<Scored>): (r: seq<real>)
    ensures |r| == |s| && forall i :: 0 <= i < |s| ==> r[i] == s[i].v
  {
    seq(|s|, i requires 0 <= i < |s| => s[i].v)
  }

  function ScoreKey(): Scored -> real { (e: Scored) => e.v }

  function BeatsScored(p: real): Scored -> int { (e: Scored) => Score(p, e.v) }

  /** Twice the tie-averaged rank of a value in `s`. */
  function Rank2(s: seq<Scored>, v: real): int { Sum(s, BeatsScored(v)) + 1 }

  /** A positive's share of twice the rank sum. */
  function RankShare(s: seq<Scored>): Scored -> int { (e: Scored) => if e.positive then Rank2(s, e.v) else 0 }

  lemma {:induction false} SumOfValues(s: seq<Scored>, v: real)
    ensures Sum(s, BeatsScored(v)) == Sum(Values(s), Beats(v))
  {
    if s != [] {
      assert Values(s)[1..] == Values(s[1..]);
      SumOfValues(s[1..], v);
    }
  }

  lemma LabelledSums(xs: seq<real>, positive: bool, v: real)
    ensures Sum(Labelled(xs, positive), BeatsScored(v)) == Sum(xs, Beats(v))
  {
    SumOfValues(Labelled(xs, positive), v);
    assert Values(Labelled(xs, positive)) == xs;
  }

  /** Twice the positives' rank sum: every positive against both classes, plus one each. */
  lemma {:induction false} RankSumOf(ps: seq<real>, pos: seq<real>, neg: seq<real>)
    ensures Sum(Labelled(ps, true), RankShare(Labelled(pos, true) + Labelled(neg, false)))
            == Wins(ps, pos) + Wins(ps, neg) + |ps|
  {
    if ps != [] {
      var all := Labelled(pos, true) + Labelled(neg, false);
      RankSumOf(ps[1..], pos, neg);
      assert Labelled(ps, true)[1..] == Labelled(ps[1..], true);
      SumConcat(Labelled(pos, true), Labelled(neg, false), BeatsScored(ps[0]));
      LabelledSums(pos, true, ps[0]);
      LabelledSums(neg, false, ps[0]);
    }
  }

  /** The rank sum of the sorted scores, in closed form. */
  lemma RankSum(sorted: seq<Scored>, pos: seq<real>, neg: seq<real>)
    requires multiset(sorted) == multiset(Labelled(pos, true) + Labelled(neg, false))
    ensures Sum(sorted, RankShare(sorted)) == |pos| * |pos| + |pos| + Wins(pos, neg)
  {
    var a, b := Labelled(pos, true), Labelled(neg, false);
    forall e: Scored ensures RankShare(sorted)(e) == RankShare(a + b)(e) {
      SumPermuted(sorted, a + b, BeatsScored(e.v));
    }
    SumAgree(sorted, RankShare(sorted), RankShare(a + b));
    SumPermuted(sorted, a + b, RankShare(a + b));
    SumConcat(a, b, RankShare(a + b));
    SumConstant(b, RankShare(a + b), 0);
    RankSumOf(pos, pos, neg);
    WinsBothWays(pos, pos);
  }

  /** The ranks of one block of ties. */
  lemma TieRank(sorted: seq<Scored>, i: nat, j: nat)
    requires i < j <= |sorted| && AscendingBy(sorted, ScoreKey())
    requires forall k :: i <= k < j ==> sorted[k].v == sorted[i].v
    requires (i > 0 ==> sorted[i - 1].v < sorted[i].v) && (j < |sorted| ==> sorted[j].v != sorted[i].v)
    ensures Rank2(sorted, sorted[i].v) == i + j + 1
    ensures j < |sorted| ==> sorted[j - 1].v < sorted[j].v
  {
    var key := ScoreKey();
    var v := sorted[i].v;
    var xs := Values(sorted);
    forall k | 0 <= k < i ensures xs[k] < v {
      assert key(sorted[k]) <= key(sorted[i - 1]);
    }
    forall k | j <= k < |xs| ensures xs[k] > v {
      assert key(sorted[i]) <= key(sorted[j]) <= key(sorted[k]);
    }
    Blocks(xs, i, j, v);
    SumOfValues(sorted, v);
  }

  lemma RankStep(sorted: seq<Scored>, k: nat)
    requires k < |sorted|
    ensures Sum(sorted[..k + 1], RankShare(sorted))
            == Sum(sorted[..k], RankShare(sorted)) + if sorted[k].positive then Rank2(sorted, sorted[k].v) else 0
  {
    SumConcat(sorted[..k], [sorted[k]], RankShare(sorted));
    assert sorted[..k + 1] == sorted[..k] + [sorted[k]];
    assert Sum([sorted[k]], RankShare(sorted)) == RankShare(sorted)(sorted[k]);
  }

  /** The harness's area: tie-averaged ranks of all the scores together, summed over the positives. */
  method RocAucByRanks(pos: seq<real>, neg: seq<real>) returns (r: real)
    ensures r == if pos == [] || neg == [] then 0.5 else Auc(pos, neg)
  {
    if pos == [] || neg == [] { return 0.5; }
    var sorted := SortBy(Labelled(pos, true) + Labelled(neg, false), ScoreKey());
    var ranks := AverageRanks(sorted);
    var rankPos, k := 0.0, 0;
    while k < |sorted|
      invariant forall m :: 0 <= m < |sorted| ==> 2.0 * ranks[m] == Rank2(sorted, sorted[m].v) as real
      invariant k <= |sorted| && 2.0 * rankPos == Sum(sorted[..k], RankShare(sorted)) as real
    {
      RankStep(sorted, k);
      if sorted[k].positive {
        rankPos := rankPos + ranks[k];
      }
      k := k + 1;
    }
    assert sorted[..k] == sorted;
    RankSum(sorted, pos, neg);
    RealProduct(|pos|, |neg|);
    RealProduct(|pos|, |pos|);
    var nPos, nNeg := |pos| as real, |neg| as real;
    assert nPos * (nPos + 1.0) == nPos * nPos + nPos;
    assert rankPos - nPos * (nPos + 1.0) / 2.0 == Wins(pos, neg) as real / 2.0;
    assert nPos * nNeg == (|pos| * |neg|) as real;
    return (rankPos - nPos * (nPos + 1.0) / 2.0) / (nPos * nNeg);
  }

  method AverageRanks(sorted: seq<Scored>) returns (ranks: array<real>)
    requires AscendingBy(sorted, ScoreKey())
    ensures fresh(ranks) && ranks.Length == |sorted|
    ensures forall k :: 0 <= k < |sorted| ==> 2.0 * ranks[k] == Rank2(sorted, sorted[k].v) as real
  {
    ranks := new real[|sorted|];
    var i := 0;
    while i < |sorted|
      invariant i <= |sorted| && (0 < i < |sorted| ==> sorted[i - 1].v < sorted[i].v)
      invariant forall k :: 0 <= k < i ==> 2.0 * ranks[k] == Rank2(sorted, sorted[k].v) as real
    {
      var j := i;
      while j + 1 < |sorted| && sorted[j + 1].v == sorted[i].v
        invariant i <= j < |sorted| && forall k :: i <= k <= j ==> sorted[k].v == sorted[i].v
      {
        j := j + 1;
      }
      TieRank(sorted, i, j + 1);
      var avg := 0.5 * ((i + 1) as real + (j + 1) as real);
      var k := i;
      while k < j + 1
        invariant i <= k <= j + 1
        invariant forall m :: 0 <= m < k ==> 2.0 * ranks[m] == Rank2(sorted, sorted[m].v) as real
      {
        ranks[k] := avg;
        k := k + 1;
      }
      i := j + 1;
    }
  }

  // ---- the exact McNemar test ---------------------------------------------------------------------------------

  function Choose(n: nat, k: nat): nat {
    if k == 0 then 1 else if n == 0 then 0 else Choose(n - 1, k - 1) + Choose(n - 1, k)
  }

  lemma Absorb(a: int, b: int, d: int, n: int, k: int)
    requires d * (k + 1) == a * (n - 1 - k) && a * k == b * (n - k)
    ensures (a + d) * (k + 1) == (b + a) * (n - k)
  {
    assert (a + d) * (k + 1) == a * (k + 1) + d * (k + 1);
    assert (b + a) * (n - k) == b * (n - k) + a * (n - k);
    assert a * (k + 1) + a * (n - 1 - k) == a * n && a * k + a * (n - k) == a * n;
  }

  /** The step from one binomial coefficient to the next. */
  lemma {:induction false} NextChoose(n: nat, k: nat)
    requires k <= n
    ensures Choose(n, k + 1) * (k + 1) == Choose(n, k) * (n - k)
  {
    if k == n {
      NoneAbove(n, n + 1);
    } else {
      NextChoose(n - 1, k);
      var b := if k == 0 then 0 else Choose(n - 1, k - 1);
      if k > 0 { NextChoose(n - 1, k - 1); }
      Absorb(Choose(n - 1, k), b, Choose(n - 1, k + 1), n, k);
    }
  }

  lemma {:induction false} NoneAbove(n: nat, k: nat)
    requires k > n
    ensures Choose(n, k) == 0
  {
    if n > 0 {
      NoneAbove(n - 1, k - 1);
      NoneAbove(n - 1, k);
    }
  }

  function Pow2(n: nat): (r: nat)
    ensures r > 0
  {
    if n == 0 then 1 else 2 * Pow2(n - 1)
  }

  /** Coefficients `0 .. k - 1`. */
  function Tail(n: nat, k: nat): nat { if k == 0 then 0 else Tail(n, k - 1) + Choose(n, k - 1) }

  /** Two-sided exact binomial on the discordant pairs: `min(1, 2 P(X <= min(b, c)))` for `X` binomial in `b + c`
      fair trials. */
  function McNemar(b: nat, c: nat): real {
    var n := b + c;
    if n == 0 then 1.0
    else
      var k := if b < c then b else c;
      var p := 2.0 * Tail(n, k + 1) as real / Pow2(n) as real;
      if p < 1.0 then p else 1.0
  }

  /** The harness sums coefficients. */
  method McNemarByCoefficients(b: nat, c: nat) returns (p: real)
    ensures p == McNemar(b, c)
  {
    var n := b + c;
    if n == 0 { return 1.0; }
    var k := if b < c then b else c;
    var tail, i := 0, 0;
    while i < k + 1
      invariant i <= k + 1 && tail == Tail(n, i)
    {
      tail := tail + Choose(n, i);
      i := i + 1;
    }
    p := 2.0 * tail as real / Pow2(n) as real;
    if p > 1.0 { p := 1.0; }
  }

  // The coefficients below two mirrored bounds make up the whole, so the test is one exactly for counts at most one
  // apart.

  /** Pascal's rule, summed. */
  lemma {:induction false} TailRow(n: nat, k: nat)
    requires n > 0 && k > 0
    ensures Tail(n, k) == Tail(n - 1, k) + Tail(n - 1, k - 1)
  {
    if k > 1 { TailRow(n, k - 1); }
  }

  lemma {:induction false} Mirror(n: nat, k: nat)
    requires k <= n + 1
    ensures Tail(n, k) + Tail(n, n + 1 - k) == Pow2(n)
  {
    if n > 0 {
      if 0 < k <= n {
        TailRow(n, k);
        TailRow(n, n + 1 - k);
        Mirror(n - 1, k);
        Mirror(n - 1, k - 1);
      } else {
        TailRow(n, n + 1);
        NoneAbove(n - 1, n);
        Mirror(n - 1, 0);
      }
    }
  }

  lemma {:induction false} TailGrows(n: nat, j: nat, k: nat)
    requires j <= k
    ensures Tail(n, j) <= Tail(n, k)
    ensures j < k && j <= n ==> Tail(n, j) < Tail(n, k)
    decreases k - j
  {
    if j < k {
      TailGrows(n, j + 1, k);
      if j <= n { SomeAt(n, j); }
    }
  }

  lemma {:induction false} SomeAt(n: nat, k: nat)
    requires k <= n
    ensures Choose(n, k) > 0
  {
    if 0 < k { SomeAt(n - 1, k - 1); }
  }

  lemma Capped(x: nat, w: nat)
    requires w > 0
    ensures 2.0 * x as real / w as real < 1.0 <==> 2 * x < w
  {
    Below(2.0 * x as real, w as real);
  }

  lemma Below(u: real, w: real)
    requires w > 0.0
    ensures u / w < 1.0 <==> u < w
  {
    var q := u / w;
    assert u == q * w;
    assert u - w == (q - 1.0) * w;
  }

  /** The test gives one to exactly the counts that differ by at most one. */
  lemma CertainExactly(b: nat, c: nat)
    ensures McNemar(b, c) <= 1.0
    ensures McNemar(b, c) == 1.0 <==> -1 <= b - c <= 1
  {
    hide Tail, Pow2;
    var n := b + c;
    var m := if b < c then b else c;
    Mirror(n, m + 1);
    if m + 1 < n - m { TailGrows(n, m + 1, n - m); } else { TailGrows(n, n - m, m + 1); }
    Capped(Tail(n, m + 1), Pow2(n));
  }

  /** `n as i32` of a u32. */
  function AsI32(n: nat): int
    requires n < 0x1_0000_0000
  {
    if n < 0x8000_0000 then n else n - 0x1_0000_0000
  }

  /** `0.5` to an integer power, of either sign. */
  function HalfTo(e: int): real
    decreases if e < 0 then -e else e
  {
    if e == 0 then 1.0 else if e > 0 then 0.5 * HalfTo(e - 1) else 2.0 * HalfTo(e + 1)
  }

  lemma {:induction false} HalfToIs(n: nat)
    ensures HalfTo(n) == 1.0 / Pow2(n) as real
  {
    if n > 0 {
      HalfToIs(n - 1);
      var w := Pow2(n - 1) as real;
      assert Pow2(n) as real == 2.0 * w;
      assert 0.5 * (1.0 / w) == 1.0 / (2.0 * w);
    }
  }

  lemma {:induction false} NegativePower(n: nat)
    ensures HalfTo(0 - n) >= 1.0
  {
    if n > 0 { NegativePower(n - 1); }
  }

  /** The calibration crate steps the probabilities by their ratio. `b + c` is a u32, but the exponent of the first one
      is cast to an i32: from 2^31 on it is negative, the power is above one and the answer is one. So the program is
      the test exactly below 2^31 and where the test is one. */
  method McNemarByRatio(b: nat, c: nat) returns (p: real)
    requires b + c < 0x1_0000_0000
    ensures p == McNemar(b, c) <==> b + c < 0x8000_0000 || -1 <= b - c <= 1
    ensures p == if b + c < 0x8000_0000 then McNemar(b, c) else 1.0
  {
    hide HalfTo, Tail, Pow2;
    CertainExactly(b, c);
    var n := b + c;
    if n == 0 { return 1.0; }
    var m := if b < c then b else c;
    var cdf := RatioSum(n, m, HalfTo(AsI32(n)));
    p := 2.0 * cdf;
    if p > 1.0 { p := 1.0; }
    if n < 0x8000_0000 {
      HalfToIs(n);
      Scaled(Tail(n, m + 1), Pow2(n));
    } else {
      NegativePower(0x1_0000_0000 - n);
      FirstTerm(n, m);
      AboveOne(HalfTo(n - 0x1_0000_0000), Tail(n, m + 1));
    }
  }

  lemma Scaled(x: nat, w: nat)
    requires w > 0
    ensures 2.0 * (1.0 / w as real * x as real) == 2.0 * x as real / w as real
  {}

  lemma FirstTerm(n: nat, m: nat)
    ensures Tail(n, m + 1) >= 1
  {
    assert Tail(n, 1) == 1;
    TailGrows(n, 1, m + 1);
  }

  lemma AboveOne(u: real, x: nat)
    requires u >= 1.0 && x >= 1
    ensures u * x as real >= 1.0
  {}

  method RatioSum(n: nat, m: nat, first: real) returns (cdf: real)
    requires m <= n
    ensures cdf == first * Tail(n, m + 1) as real
  {
    hide Choose;
    var pmf, i := first, 0;
    cdf := 0.0;
    NoneChosen(n);
    while i < m + 1
      invariant i <= m + 1 && pmf == first * Choose(n, i) as real && cdf == first * Tail(n, i) as real
    {
      NextChoose(n, i);
      RatioStep(first, Choose(n, i), Choose(n, i + 1), i, n);
      cdf := cdf + pmf;
      pmf := pmf * ((n - i) as real / (i + 1) as real);
      i := i + 1;
    }
  }

  lemma NoneChosen(n: nat)
    ensures Choose(n, 0) == 1
  {}

  lemma RatioStep(first: real, x: nat, y: nat, i: nat, n: nat)
    requires i <= n && y * (i + 1) == x * (n - i)
    ensures first * x as real * ((n - i) as real / (i + 1) as real) == first * y as real
  {
    RealProduct(y, i + 1);
    RealProduct(x, n - i);
    CrossMultiply(first, x as real, y as real, (n - i) as real, (i + 1) as real);
  }

  lemma CrossMultiply(u: real, x: real, y: real, a: real, b: real)
    requires b > 0.0 && y * b == x * a
    ensures u * x * (a / b) == u * y
  {
    assert x * (a / b) == x * a / b == y;
    assert u * x * (a / b) == u * (x * (a / b));
  }
}
