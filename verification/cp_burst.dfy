/** src/cp_control.cpp, read_cp_mv_burst: one ADC burst reduced to minimum, plateau, mean and peak,
    with the K largest samples kept in a small array that is always sorted. */
module CpBurst {

  // The two ends of the 32-bit range stand for "no sample yet".
  const NONE_MIN: int := 0x7FFF_FFFF
  const NONE_MAX: int := -0x8000_0000

  predicate Sorted(s: seq<int>) {
    forall i, j :: 0 <= i < j < |s| ==> s[i] <= s[j]
  }

  function Sum(s: seq<int>): int {
    if s == [] then 0 else Sum(s[..|s| - 1]) + s[|s| - 1]
  }

  /** C++ integer division: truncates towards zero. */
  function TruncDiv(a: int, b: int): int
    requires b > 0
  {
    if a >= 0 then a / b else -((-a) / b)
  }

  /** v put into a sorted sequence. */
  function Insert(s: seq<int>, v: int): seq<int> {
    if s == [] || s[|s| - 1] <= v then s + [v]
    else Insert(s[..|s| - 1], v) + [s[|s| - 1]]
  }

  /** Every element lies between the bounds. */
  predicate Within(s: seq<int>, lo: int, hi: int) {
    forall i :: 0 <= i < |s| ==> lo <= s[i] <= hi
  }

  predicate AtMost(s: seq<int>, hi: int) {
    forall i :: 0 <= i < |s| ==> s[i] <= hi
  }

  predicate AtLeast(s: seq<int>, lo: int) {
    forall i :: 0 <= i < |s| ==> lo <= s[i]
  }

  /** Any split of a sorted sequence around v is where Insert puts it. */
  lemma {:induction false} InsertBetween(a: seq<int>, b: seq<int>, v: int)
    requires Sorted(b) && AtMost(a, v) && AtLeast(b, v)
    ensures Insert(a + b, v) == a + [v] + b
  {
    if b == [] {
      assert a + b == a && a + [v] + b == a + [v];
    } else {
      var c := b[..|b| - 1];
      var last := b[|b| - 1];
      assert (a + b)[..|a + b| - 1] == a + c && (a + b)[|a + b| - 1] == last;
      if last <= v {
        assert forall i :: 0 <= i < |b| ==> b[i] == v;
        assert (a + b) + [v] == a + [v] + b;
      } else {
        InsertBetween(a, c, v);
        assert a + [v] + b == (a + [v] + c) + [last];
      }
    }
  }

  lemma InsertAt(t: seq<int>, i: nat, v: int)
    requires Sorted(t) && i <= |t|
    requires i > 0 ==> t[i - 1] <= v
    requires i < |t| ==> v <= t[i]
    ensures Insert(t, v) == t[..i] + [v] + t[i..]
  {
    var a, b := t[..i], t[i..];
    assert AtMost(a, v) by {
      forall k | 0 <= k < |a| ensures a[k] <= v {
        assert a[k] == t[k] && t[k] <= t[i - 1];
      }
    }
    assert AtLeast(b, v) by {
      forall k | 0 <= k < |b| ensures v <= b[k] {
        assert b[k] == t[i + k];
      }
    }
    assert Sorted(b);
    InsertBetween(a, b, v);
    assert a + b == t;
  }

  /** The K largest of a sample sequence, ascending, as the samples arrive one by one. */
  function Top(s: seq<int>, K: nat): seq<int> {
    if s == [] then []
    else
      var t := Top(s[..|s| - 1], K);
      var v := s[|s| - 1];
      if |t| < K then Insert(t, v)
      else if |t| > 0 && v > t[0] then Insert(t[1..], v)
      else t
  }

  /** The samples Top let go. */
  function Rest(s: seq<int>, K: nat): seq<int> {
    if s == [] then []
    else
      var t := Top(s[..|s| - 1], K);
      var r := Rest(s[..|s| - 1], K);
      var v := s[|s| - 1];
      if |t| < K then r
      else if |t| > 0 && v > t[0] then r + [t[0]]
      else r + [v]
  }

  lemma {:induction false} InsertBounds(s: seq<int>, v: int, lo: int, hi: int)
    requires Within(s, lo, hi) && lo <= v <= hi
    ensures Within(Insert(s, v), lo, hi) && Insert(s, v) != []
  {
    if s != [] && s[|s| - 1] > v {
      InsertBounds(s[..|s| - 1], v, lo, hi);
    }
  }

  lemma {:induction false} InsertSorted(s: seq<int>, v: int)
    requires Sorted(s)
    ensures Sorted(Insert(s, v))
  {
    if s != [] && s[|s| - 1] > v {
      var p, last := s[..|s| - 1], s[|s| - 1];
      InsertSorted(p, v);
      InsertBounds(p, v, if s[0] < v then s[0] else v, last);
    }
  }

  lemma {:induction false} SumFront(s: seq<int>)
    requires s != []
    ensures Sum(s) == s[0] + Sum(s[1..])
  {
    if |s| > 1 {
      SumFront(s[..|s| - 1]);
      assert s[..|s| - 1][1..] == s[1..][..|s| - 2];
    } else {
      assert s[..0] == [];
    }
  }

  lemma Appended(s: seq<int>, v: int)
    ensures multiset(s + [v]) == multiset(s) + multiset{v}
  {
  }

  /** One arrival moves the new sample, or the smallest kept one, to where it belongs. */
  lemma ArrivalKeeps(t: seq<int>, r: seq<int>, v: int, K: nat)
    ensures multiset(t) + multiset(r) + multiset{v} ==
            if |t| < K then multiset(Insert(t, v)) + multiset(r)
            else if |t| > 0 && v > t[0] then multiset(Insert(t[1..], v)) + multiset(r + [t[0]])
            else multiset(t) + multiset(r + [v])
  {
    hide Insert;
    KeepsMembers(t, v);
    Appended(r, v);
    if |t| > 0 {
      assert t == [t[0]] + t[1..];
      assert multiset(t) == multiset{t[0]} + multiset(t[1..]);
      Appended(r, t[0]);
      KeepsMembers(t[1..], v);
    }
  }

  /** Splitting never loses a sample: what is kept and what is let go make up the samples. */
  lemma {:induction false} TopAndRest(s: seq<int>, K: nat)
    ensures multiset(s) == multiset(Top(s, K)) + multiset(Rest(s, K))
  {
    if s != [] {
      var p, v := s[..|s| - 1], s[|s| - 1];
      assert s == p + [v];
      TopAndRest(p, K);
      Appended(p, v);
      ArrivalKeeps(Top(p, K), Rest(p, K), v, K);
      hide Insert;
    }
  }

  lemma {:induction false} TopSizes(s: seq<int>, K: nat)
    ensures var t, r := Top(s, K), Rest(s, K);
            && |t| == (if |s| < K then |s| else K)
            && |t| + |r| == |s|
            && Sum(s) == Sum(t) + Sum(r)
  {
    if s != [] {
      var p, v := s[..|s| - 1], s[|s| - 1];
      TopSizes(p, K);
      var t, r := Top(p, K), Rest(p, K);
      if |t| < K {
        InsertSums(t, v);
      } else if |t| > 0 && v > t[0] {
        InsertSums(t[1..], v);
        SumFront(t);
        assert (r + [t[0]])[..|r|] == r;
      } else {
        assert (r + [v])[..|r|] == r;
      }
    }
  }

  lemma {:induction false} InsertSums(s: seq<int>, v: int)
    ensures |Insert(s, v)| == |s| + 1
    ensures Sum(Insert(s, v)) == Sum(s) + v
  {
    if s == [] || s[|s| - 1] <= v {
      assert (s + [v])[..|s|] == s;
    } else {
      var p, last := s[..|s| - 1], s[|s| - 1];
      InsertSums(p, v);
      assert (Insert(p, v) + [last])[..|s|] == Insert(p, v);
    }
  }

  lemma {:induction false} KeepsMembers(s: seq<int>, v: int)
    ensures multiset(Insert(s, v)) == multiset(s) + multiset{v}
  {
    if s != [] && s[|s| - 1] > v {
      var p, last := s[..|s| - 1], s[|s| - 1];
      KeepsMembers(p, v);
      assert s == p + [last];
    }
  }

  lemma {:induction false} Bounds(s: seq<int>) returns (lo: int, hi: int)
    ensures Within(s, lo, hi)
  {
    if s == [] {
      lo, hi := 0, 0;
    } else {
      lo, hi := Bounds(s[..|s| - 1]);
      var v := s[|s| - 1];
      lo, hi := if v < lo then v else lo, if v > hi then v else hi;
    }
  }

  lemma ReplaceKeepsLargest(t: seq<int>, r: seq<int>, v: int)
    requires Sorted(t) && t != [] && AtMost(r, t[0]) && v > t[0]
    ensures Sorted(Insert(t[1..], v)) && Insert(t[1..], v) != []
    ensures AtMost(r + [t[0]], Insert(t[1..], v)[0])
  {
    InsertSorted(t[1..], v);
    var _, hi := Bounds(t[1..] + [v]);
    assert forall i :: 0 <= i < |t[1..]| ==> (t[1..] + [v])[i] == t[1..][i];
    assert (t[1..] + [v])[|t[1..]|] == v;
    InsertBounds(t[1..], v, t[0], hi);
  }

  /** What is kept is sorted, and nothing let go exceeds anything kept. */
  lemma {:induction false} TopIsLargest(s: seq<int>, K: nat)
    ensures Sorted(Top(s, K))
    ensures K > 0 && s != [] ==> Top(s, K) != [] && AtMost(Rest(s, K), Top(s, K)[0])
  {
    if s != [] && K > 0 {
      var p, v := s[..|s| - 1], s[|s| - 1];
      TopIsLargest(p, K);
      TopSizes(p, K);
      var t, r := Top(p, K), Rest(p, K);
      if |t| < K {
        InsertSorted(t, v);
        InsertSums(t, v);
        assert r == [];
      } else if v > t[0] {
        ReplaceKeepsLargest(t, r, v);
      }
    } else if s != [] {
      TopSizes(s, K);
    }
  }

  /** How many of the largest samples make the plateau. */
  function PlateauCount(n: nat): nat {
    if n / 6 > 3 then n / 6 else 3
  }

  function Plateau(t: seq<int>): int
    requires t != []
  {
    if |t| > 4 then TruncDiv(Sum(t[|t| - PlateauCount(|t|)..]), PlateauCount(|t|))
    else t[|t| - 1]
  }

  // ---------------------------------------------------------------- ordering of the four results

  lemma {:induction false} SumBounds(s: seq<int>, lo: int, hi: int)
    requires Within(s, lo, hi)
    ensures |s| * lo <= Sum(s) <= |s| * hi
  {
    if s != [] {
      var p := s[..|s| - 1];
      SumBounds(p, lo, hi);
      assert |s| * lo == |p| * lo + lo && |s| * hi == |p| * hi + hi;
    }
  }

  lemma {:induction false} SumSplit(s: seq<int>, k: nat)
    requires k <= |s|
    ensures Sum(s) == Sum(s[..k]) + Sum(s[k..])
    decreases |s| - k
  {
    if k < |s| {
      SumSplit(s, k + 1);
      assert s[..k + 1][..k] == s[..k];
      SumFront(s[k..]);
      assert s[k..][1..] == s[k + 1..];
    } else {
      assert s[..k] == s && s[k..] == [];
    }
  }

  /** The mean of n samples does not exceed the mean of m of them when the other n - m are at most x
      and those m average at least x. */
  lemma MeanOfLargest(a: nat, n: nat, b: nat, m: nat, x: nat)
    requires 0 < m <= n && m * x <= b && a <= b + (n - m) * x
    ensures a / n <= b / m
  {
    var q := a / n;
    QuotientMeans(a, n, q);
    if x >= q {
      Monotone(m, q, x);
      assert q * m <= b;
    } else {
      Monotone(n - m, x, q);
      assert q * n == q * m + (n - m) * q;
      assert q * m <= b;
    }
    QuotientMeans(b, m, q);
  }

  lemma QuotientMeans(a: nat, n: nat, q: nat)
    requires n > 0
    ensures a / n >= q <==> q * n <= a
  {
    assert a == (a / n) * n + a % n;
    if a / n >= q {
      Monotone(n, q, a / n);
    } else {
      Monotone(n, a / n + 1, q);
    }
  }

  lemma Monotone(k: nat, x: int, y: int)
    requires x <= y
    ensures k * x <= k * y && x * k <= y * k
  {
  }

  /** A mean lies between the bounds of its sum. */
  lemma MeanBounds(s: seq<int>, lo: nat, hi: nat)
    requires s != [] && Within(s, lo, hi)
    ensures lo <= TruncDiv(Sum(s), |s|) <= hi
    ensures 0 <= Sum(s)
  {
    SumBounds(s, lo, hi);
    Monotone(|s|, 0, lo);
    QuotientMeans(Sum(s), |s|, lo);
    QuotientMeans(Sum(s), |s|, hi + 1);
    assert (hi + 1) * |s| == |s| * hi + |s|;
  }

  lemma MembersWithin(s: seq<int>, K: nat, lo: int, hi: int)
    requires Within(s, lo, hi)
    ensures Within(Top(s, K), lo, hi) && Within(Rest(s, K), lo, hi)
  {
    TopAndRest(s, K);
    var t, r := Top(s, K), Rest(s, K);
    forall i | 0 <= i < |t| ensures lo <= t[i] <= hi {
      assert t[i] in multiset(t);
      assert t[i] in multiset(s);
    }
    forall i | 0 <= i < |r| ensures lo <= r[i] <= hi {
      assert r[i] in multiset(r);
      assert r[i] in multiset(s);
    }
  }

  /** x, the smallest of the m largest, separates them from everything else. */
  lemma LargestSeparated(t: seq<int>, r: seq<int>, m: nat, hi: int)
    requires Sorted(t) && 0 < m <= |t| && AtMost(t, hi) && AtMost(r, t[0])
    ensures var x := t[|t| - m];
            Within(t[|t| - m..], x, hi) && AtMost(t[..|t| - m], x) && AtMost(r, x)
  {
    assert t[0] <= t[|t| - m];
  }

  lemma {:induction false} SumAtMost(s: seq<int>, x: int)
    requires AtMost(s, x)
    ensures Sum(s) <= |s| * x
  {
    if s != [] {
      SumAtMost(s[..|s| - 1], x);
      assert |s| * x == (|s| - 1) * x + x;
    }
  }

  /** The same statement about the two halves kept and let go, free of how they came about. */
  lemma PartsAverage(t: seq<int>, r: seq<int>, m: nat, hi: nat)
    requires Sorted(t) && 0 < m <= |t| && Within(t, 0, hi) && Within(r, 0, hi) && AtMost(r, t[0])
    ensures var u := t[|t| - m..];
            0 <= Sum(t) + Sum(r) && 0 <= Sum(u) && (Sum(t) + Sum(r)) / (|t| + |r|) <= Sum(u) / m <= hi
  {
    LargestSeparated(t, r, m, hi);
    var w, u, x: nat := t[..|t| - m], t[|t| - m..], t[|t| - m];
    SumSplit(t, |t| - m);
    MeanBounds(u, x, hi);
    SumNonNegative(w, hi);
    SumNonNegative(r, hi);
    assert (Sum(t) + Sum(r)) / (|t| + |r|) <= Sum(u) / m by {
      SumAtMost(w, x);
      SumAtMost(r, x);
      SumBounds(u, x, hi);
      CombineOthers(Sum(t) + Sum(r), |t| + |r|, Sum(u), m, Sum(w), |w|, Sum(r), |r|, x);
    }
  }

  lemma {:induction false} SumNonNegative(s: seq<int>, hi: int)
    requires Within(s, 0, hi)
    ensures Sum(s) >= 0
  {
    if s != [] {
      SumNonNegative(s[..|s| - 1], hi);
    }
  }

  /** The mean of all samples is at most the mean of the m largest. */
  lemma LargestAverageMore(s: seq<int>, K: nat, m: nat, lo: nat, hi: nat)
    requires s != [] && Within(s, lo, hi) && 0 < m <= |Top(s, K)|
    ensures var u := Top(s, K)[|Top(s, K)| - m..];
            TruncDiv(Sum(s), |s|) <= TruncDiv(Sum(u), m) <= hi
  {
    hide Top, Rest, Sum, Sorted;
    TopSizes(s, K);
    MembersWithin(s, K, 0, hi);
    TopIsLargest(s, K);
    PartsAverage(Top(s, K), Rest(s, K), m, hi);
  }

  lemma CombineOthers(a: nat, n: nat, b: nat, m: nat, sw: int, w: nat, sr: int, r: nat, x: nat)
    requires a == b + sw + sr && n == m + w + r && m > 0
    requires sw <= w * x && sr <= r * x && m * x <= b
    ensures a / n <= b / m
  {
    assert (n - m) * x == w * x + r * x;
    MeanOfLargest(a, n, b, m, x);
  }

  lemma LastAverageMore(s: seq<int>, K: nat, lo: nat, hi: nat)
    requires s != [] && Within(s, lo, hi) && Top(s, K) != []
    ensures TruncDiv(Sum(s), |s|) <= Top(s, K)[|Top(s, K)| - 1] <= hi
  {
    var t := Top(s, K);
    MembersWithin(s, K, lo, hi);
    LargestAverageMore(s, K, 1, lo, hi);
    var u := t[|t| - 1..];
    assert u == [t[|t| - 1]] && u[..0] == [];
    assert Sum(u) == t[|t| - 1];
  }

  /** The plateau is the mean of a suffix of what is kept, or its last entry. */
  lemma PlateauMeans(t: seq<int>)
    requires t != []
    ensures |t| > 4 ==> 0 < PlateauCount(|t|) <= |t|
                        && Plateau(t) == TruncDiv(Sum(t[|t| - PlateauCount(|t|)..]), PlateauCount(|t|))
    ensures |t| <= 4 ==> Plateau(t) == t[|t| - 1]
  {
    hide Sum, TruncDiv;
  }

  lemma PlateauBetween(s: seq<int>, K: nat, lo: nat, hi: nat)
    requires s != [] && Within(s, lo, hi) && Top(s, K) != []
    ensures TruncDiv(Sum(s), |s|) <= Plateau(Top(s, K)) <= hi
  {
    hide Top, Sum, TruncDiv, Plateau, PlateauCount;
    PlateauMeans(Top(s, K));
    if |Top(s, K)| > 4 {
      LargestAverageMore(s, K, PlateauCount(|Top(s, K)|), lo, hi);
    } else {
      LastAverageMore(s, K, lo, hi);
    }
  }

  /** For non-negative samples: minimum <= mean <= plateau <= peak. */
  lemma ResultsOrdered(s: seq<int>, K: nat, lo: nat, hi: nat)
    requires s != [] && K > 0 && Within(s, lo, hi)
    ensures Top(s, K) != []
    ensures lo <= TruncDiv(Sum(s), |s|) <= Plateau(Top(s, K)) <= hi
  {
    TopSizes(s, K);
    hide Top, Rest, Sum, TruncDiv, Plateau;
    MeanBounds(s, lo, hi);
    PlateauBetween(s, K, lo, hi);
  }

  // ---------------------------------------------------------------- the burst

  /** The insertion into the fixed array: shift while below capacity, otherwise replace the smallest
      and bubble up. */
  method InsertTopK(topk: array<int>, tk: nat, v: int, ghost t: seq<int>) returns (tk': nat)
    requires topk.Length > 0 && tk <= topk.Length && topk[..tk] == t && Sorted(t)
    modifies topk
    ensures tk' == (if tk < topk.Length then tk + 1 else tk)
    ensures topk[..tk'] == (if |t| < topk.Length then Insert(t, v)
                            else if v > t[0] then Insert(t[1..], v) else t)
  {
    if tk < topk.Length {
      AppendSorted(topk, tk, v, t);
      tk' := tk + 1;
    } else {
      assert topk[0] == topk[..tk][0] == t[0];
      if v > topk[0] {
        ReplaceSmallest(topk, v, t);
      }
      tk' := tk;
    }
  }

  /** Moving a hole one place down: s is t with a hole at i, filled by v in thought. */
  lemma HoleDown(s: seq<int>, t: seq<int>, i: nat, v: int)
    requires 0 < i <= |t| && |s| == |t| + 1
    requires s[i := v] == t[..i] + [v] + t[i..]
    ensures s[i - 1] == t[i - 1]
    ensures s[i := s[i - 1]][i - 1 := v] == t[..i - 1] + [v] + t[i - 1..]
  {
    var left, right := s[i := v], t[..i] + [v] + t[i..];
    assert left[i - 1] == right[i - 1];
    var a, b := s[i := s[i - 1]][i - 1 := v], t[..i - 1] + [v] + t[i - 1..];
    forall k | 0 <= k < |a| ensures a[k] == b[k] {
      assert left[k] == right[k];
    }
  }

  method AppendSorted(topk: array<int>, tk: nat, v: int, ghost t: seq<int>)
    requires tk < topk.Length && topk[..tk] == t && Sorted(t)
    modifies topk
    ensures topk[..tk + 1] == Insert(t, v)
  {
    var i := tk;
    assert topk[..tk + 1][tk := v] == t[..tk] + [v] + t[tk..];
    while i > 0 && topk[i - 1] > v
      invariant 0 <= i <= tk
      invariant topk[..tk + 1][i := v] == t[..i] + [v] + t[i..]
      invariant i < tk ==> t[i] > v
    {
      ghost var s := topk[..tk + 1];
      HoleDown(s, t, i, v);
      topk[i] := topk[i - 1];
      assert topk[..tk + 1] == s[i := s[i - 1]];
      i := i - 1;
    }
    if i > 0 {
      HoleDown(topk[..tk + 1], t, i, v);
    }
    topk[i] := v;
    InsertAt(t, i, v);
  }

  /** Bubbling v one place up past a smaller element. */
  lemma BubbleUp(s: seq<int>, t: seq<int>, i: nat, v: int)
    requires i + 1 < |t|
    requires s == t[1..i + 1] + [v] + t[i + 1..]
    ensures s[i] == v && s[i + 1] == t[i + 1]
    ensures s[i := s[i + 1]][i + 1 := v] == t[1..i + 2] + [v] + t[i + 2..]
  {
  }

  method ReplaceSmallest(topk: array<int>, v: int, ghost t: seq<int>)
    requires topk.Length > 0 && topk[..] == t && Sorted(t) && v > t[0]
    modifies topk
    ensures topk[..] == Insert(t[1..], v)
  {
    topk[0] := v;
    var i := 0;
    while i + 1 < topk.Length && topk[i] > topk[i + 1]
      invariant 0 <= i < topk.Length
      invariant topk[..] == t[1..i + 1] + [v] + t[i + 1..]
      invariant i > 0 ==> t[i] < v
    {
      ghost var s := topk[..];
      BubbleUp(s, t, i, v);
      topk[i], topk[i + 1] := topk[i + 1], topk[i];
      assert topk[..] == s[i := s[i + 1]][i + 1 := v];
      i := i + 1;
    }
    if i + 1 < topk.Length {
      BubbleUp(topk[..], t, i, v);
    }
    InsertAt(t[1..], i, v);
    assert t[1..][..i] == t[1..i + 1] && t[1..][i..] == t[i + 1..];
  }

  /** The plateau taken from the filled part of the array. */
  method PlateauOf(topk: array<int>, tk: nat, ghost t: seq<int>) returns (robust: int)
    requires 0 < tk <= topk.Length && topk[..tk] == t
    ensures robust == Plateau(t)
  {
    assert forall k :: 0 <= k < tk ==> topk[k] == topk[..tk][k];
    robust := topk[tk - 1];
    if tk > 4 {
      var start := tk - (if tk / 6 > 3 then tk / 6 else 3);
      var sum, cnt := 0, 0;
      var j := start;
      while j <= tk - 1
        invariant start <= j <= tk
        invariant cnt == j - start && sum == Sum(t[start..j])
      {
        assert t[start..j + 1][..j - start] == t[start..j];
        sum := sum + topk[j];
        cnt := cnt + 1;
        j := j + 1;
      }
      assert t[start..j] == t[start..];
      robust := TruncDiv(sum, cnt);
    }
  }

  lemma OneMore(s: seq<int>, v: int, K: nat)
    requires K > 0
    ensures Sorted(Top(s, K)) && |Top(s, K)| <= K
    ensures Sum(s + [v]) == Sum(s) + v
    ensures Top(s + [v], K) == var t := Top(s, K);
              if |t| < K then Insert(t, v) else if v > t[0] then Insert(t[1..], v) else t
  {
    TopIsLargest(s, K);
    TopSizes(s, K);
    assert (s + [v])[..|s|] == s;
  }

  lemma NothingYet(K: nat)
    ensures Sum([]) == 0 && Top([], K) == []
  {
  }

  /** Minimum and maximum seen so far; before the first sample the two sentinels. */
  ghost predicate Extremes(s: seq<int>, lo: int, hi: int) {
    if s == [] then lo == NONE_MIN && hi == NONE_MAX
    else lo in s && hi in s && Within(s, lo, hi)
  }

  lemma ExtremesStep(s: seq<int>, v: int, lo: int, hi: int)
    requires Extremes(s, lo, hi) && NONE_MAX < v < NONE_MIN
    ensures Extremes(s + [v], if v < lo then v else lo, if v > hi then v else hi)
  {
    assert (s + [v])[|s|] == v;
    assert forall x :: x in s ==> x in s + [v];
  }

  method ReadBurst(samples: seq<int>, K: nat) returns (minMv: int, plateau: int, avg: int, peak: int)
    requires samples != [] && K > 0 && Within(samples, NONE_MAX + 1, NONE_MIN - 1)
    ensures minMv in samples && peak in samples && Within(samples, minMv, peak)
    ensures avg == TruncDiv(Sum(samples), |samples|)
    ensures Top(samples, K) != [] && plateau == Plateau(Top(samples, K))
  {
    NothingYet(K);
    hide Top, Rest, Insert, Sum, Sorted;
    var minv, maxv, acc := NONE_MIN, NONE_MAX, 0;
    var topk := new int[K];
    var tk := 0;
    var i := 0;
    ghost var seen: seq<int> := [];
    while i < |samples|
      invariant 0 <= i <= |samples| && seen == samples[..i]
      invariant acc == Sum(seen)
      invariant Extremes(seen, minv, maxv)
      invariant tk <= K && topk[..tk] == Top(seen, K)
    {
      var v := samples[i];
      OneMore(seen, v, K);
      ExtremesStep(seen, v, minv, maxv);
      acc := acc + v;
      minv := if v < minv then v else minv;
      maxv := if v > maxv then v else maxv;
      tk := InsertTopK(topk, tk, v, Top(seen, K));
      i := i + 1;
      seen := seen + [v];
    }
    assert seen == samples;
    TopSizes(samples, K);
    plateau := PlateauOf(topk, tk, Top(samples, K));
    minMv, avg, peak := minv, TruncDiv(acc, |samples|), maxv;
  }
}
