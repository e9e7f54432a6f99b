/** The collector's average of reported heights, leaving out the lowest and the highest values. */
module TrimmedMean {
  import opened Common

  const U64_LIMIT: nat := 0x1_0000_0000_0000_0000

  ghost predicate IsSorted(s: seq<nat>) {
    forall i, j :: 0 <= i < j < |s| ==> s[i] <= s[j]
  }

  function InsertSorted(x: nat, s: seq<nat>): (r: seq<nat>)
    ensures |r| == |s| + 1
  {
    if s == [] || x <= s[0] then [x] + s else [s[0]] + InsertSorted(x, s[1..])
  }

  function Sort(s: seq<nat>): seq<nat> {
    if s == [] then [] else InsertSorted(s[0], Sort(s[1..]))
  }

  lemma {:induction false} InsertSortedMultiset(x: nat, s: seq<nat>)
    ensures multiset(InsertSorted(x, s)) == multiset(s) + multiset{x}
    decreases |s|
  {
    if s == [] || x <= s[0] {
    } else {
      InsertSortedMultiset(x, s[1..]);
      assert s == [s[0]] + s[1..];
    }
  }

  lemma {:induction false} InsertSortedSorted(x: nat, s: seq<nat>)
    requires IsSorted(s)
    ensures IsSorted(InsertSorted(x, s))
    ensures InsertSorted(x, s)[0] == x || (s != [] && InsertSorted(x, s)[0] == s[0])
    decreases |s|
  {
    if s == [] || x <= s[0] {
    } else {
      InsertSortedSorted(x, s[1..]);
      var r := InsertSorted(x, s[1..]);
      assert s[0] <= r[0];
    }
  }

  lemma {:induction false} SortCorrect(s: seq<nat>)
    ensures IsSorted(Sort(s)) && multiset(Sort(s)) == multiset(s) && |Sort(s)| == |s|
    decreases |s|
  {
    if s == [] {
    } else {
      SortCorrect(s[1..]);
      InsertSortedSorted(s[0], Sort(s[1..]));
      InsertSortedMultiset(s[0], Sort(s[1..]));
      assert s == [s[0]] + s[1..];
      assert |multiset(Sort(s))| == |multiset(s)|;
    }
  }

  /** A sorted arrangement is unique: how the library sorts makes no difference. */
  lemma {:induction false} SortedIsUnique(a: seq<nat>, b: seq<nat>)
    requires IsSorted(a) && IsSorted(b) && multiset(a) == multiset(b)
    ensures a == b
    decreases |a|
  {
    assert |a| == |multiset(a)| == |multiset(b)| == |b|;
    if a == [] {
    } else {
      assert a[0] == b[0] by { LeastFirst(a, b); LeastFirst(b, a); }
      WithoutFirst(a);
      WithoutFirst(b);
      SortedIsUnique(a[1..], b[1..]);
      assert a == [a[0]] + a[1..] && b == [b[0]] + b[1..];
    }
  }

  lemma LeastFirst(a: seq<nat>, b: seq<nat>)
    requires a != [] && b != [] && IsSorted(a) && multiset(a) == multiset(b)
    ensures a[0] <= b[0]
  {
    assert b[0] in multiset(b);
    var i :| 0 <= i < |a| && a[i] == b[0];
  }

  lemma WithoutFirst(a: seq<nat>)
    requires a != []
    ensures multiset(a[1..]) == multiset(a) - multiset{a[0]}
  {
    assert a == [a[0]] + a[1..];
  }

  function Sum(s: seq<nat>): nat {
    if s == [] then 0 else Sum(s[..|s| - 1]) + s[|s| - 1]
  }

  lemma {:induction false} SumOfParts(a: seq<nat>, b: seq<nat>)
    ensures Sum(a + b) == Sum(a) + Sum(b)
    ensures forall x: nat :: Sum([x]) == x
    decreases |b|
  {
    if b == [] {
      assert a + b == a;
    } else {
      var init := b[..|b| - 1];
      SumOfParts(a, init);
      assert (a + b)[..|a + b| - 1] == a + init;
    }
    forall x: nat ensures Sum([x]) == x {
      assert [x][..0] == [];
    }
  }

  /** `values` fall into low ones, kept ones and high ones, and half of the omitted ones, rounded down, are low. */
  ghost predicate Trims(values: seq<nat>, below: seq<nat>, kept: seq<nat>, above: seq<nat>) {
    && |below| == (|values| - |kept|) / 2
    && multiset(below) + multiset(kept) + multiset(above) == multiset(values)
    && (forall i, j :: 0 <= i < |below| && 0 <= j < |kept| ==> below[i] <= kept[j])
    && (forall i, j :: 0 <= i < |kept| && 0 <= j < |above| ==> kept[i] <= above[j])
  }

  /** The values kept: `included` of them, from the middle of the sorted list. */
  function Kept(values: seq<nat>, included: nat): (kept: seq<nat>)
    requires included <= |values|
    ensures |kept| == included
    ensures exists below, above :: Trims(values, below, kept, above)
  {
    var start := (|values| - included) / 2;
    SortCorrect(values);
    SortedTrims(values, Sort(values), included);
    Sort(values)[start..start + included]
  }

  lemma SortedTrims(values: seq<nat>, sorted: seq<nat>, included: nat)
    requires included <= |values| == |sorted| && IsSorted(sorted) && multiset(sorted) == multiset(values)
    ensures var start := (|values| - included) / 2;
            Trims(values, sorted[..start], sorted[start..start + included], sorted[start + included..])
  {
    var start := (|values| - included) / 2;
    assert sorted == sorted[..start] + sorted[start..start + included] + sorted[start + included..];
  }

  /** Add up 64-bit numbers; an overflow stops a build with overflow checks and reduces the sum in one without. */
  method SumUp(values: seq<nat>, overflowChecks: bool) returns (sum: Option<nat>)
    ensures sum.Some? <==> (overflowChecks ==> Sum(values) < U64_LIMIT)
    ensures sum.Some? ==> sum.value == Sum(values) % U64_LIMIT
  {
    var total := 0;
    for i := 0 to |values|
      invariant total == Sum(values[..i]) % U64_LIMIT
      invariant overflowChecks ==> Sum(values[..i]) < U64_LIMIT
    {
      assert values[..i + 1][..i] == values[..i];
      ReducedSum(Sum(values[..i]), values[i]);
      if overflowChecks && total + values[i] >= U64_LIMIT {
        SumOfPrefix(values, i + 1);
        return None;
      }
      total := (total + values[i]) % U64_LIMIT;
    }
    assert values[..|values|] == values;
    return Some(total);
  }

  /**
    The average; there is none, and the program stops, also if more values are asked for than
    there are, or none. A few high outliers never lift the result, even if the sum is reduced; a
    few low ones do not pull it down if the sum fits.
   */
  method AverageWithoutOuterValues(values: seq<nat>, included: nat, overflowChecks: bool) returns (avg: Option<nat>)
    ensures avg.Some? <==>
              && 1 <= included <= |values|
              && (overflowChecks ==> Sum(Kept(values, included)) < U64_LIMIT)
    ensures avg.Some? ==> avg.value == Sum(Kept(values, included)) % U64_LIMIT / included
    ensures avg.Some? ==>
              forall hi: nat :: CountAbove(values, hi) <= (|values| - included + 1) / 2 ==> avg.value <= hi
    ensures avg.Some? && Sum(Kept(values, included)) < U64_LIMIT ==>
              forall lo: nat :: CountBelow(values, lo) <= (|values| - included) / 2 ==> avg.value >= lo
  {
    hide Sum, Sort, CountAbove, CountBelow;
    if included > |values| || included == 0 {
      return None;
    }
    SortCorrect(values);
    var sorted := Sort(values);
    var omitting := |values| - included;
    var start := omitting / 2;
    var end := start + included;
    var sum := SumUp(sorted[start..end], overflowChecks);
    if sum.None? {
      return None;
    }
    Bounds(values, included);
    return Some(sum.value / included);
  }

  lemma ReducedSum(a: nat, b: nat)
    ensures (a % U64_LIMIT + b) % U64_LIMIT == (a + b) % U64_LIMIT
  {
    var q := a / U64_LIMIT;
    assert a == q * U64_LIMIT + a % U64_LIMIT;
  }

  lemma {:induction false} SumOfPrefix(s: seq<nat>, n: nat)
    requires n <= |s|
    ensures Sum(s[..n]) <= Sum(s)
    decreases |s|
  {
    if n == |s| {
      assert s[..n] == s;
    } else {
      assert s[..|s| - 1][..n] == s[..n];
      SumOfPrefix(s[..|s| - 1], n);
    }
  }

  /** Without overflow checks, the result is the average of the kept values exactly when their sum fits 64 bits. */
  lemma ExactIffSumFits(sum: nat, included: nat)
    requires 1 <= included < U64_LIMIT
    ensures sum % U64_LIMIT / included == sum / included <==> sum < U64_LIMIT
  {
    Reduced(sum);
    SameQuotient(sum % U64_LIMIT, sum, included);
  }

  lemma Reduced(sum: nat)
    ensures sum < U64_LIMIT ==> sum % U64_LIMIT == sum
    ensures sum >= U64_LIMIT ==> sum % U64_LIMIT + U64_LIMIT <= sum
  {
  }

  lemma SameQuotient(a: nat, b: nat, n: nat)
    requires n > 0 && (a == b || a + n <= b)
    ensures a / n == b / n <==> a == b
  {
    if a != b {
      QuotientGrows(a, b, n);
    }
  }

  lemma QuotientBounds(a: nat, n: nat)
    requires n > 0
    ensures a / n * n <= a < a / n * n + n
  {
    assert a == a / n * n + a % n;
  }

  lemma Multiplied(a: nat, b: nat, n: nat)
    requires a <= b
    ensures a * n <= b * n
  {
    assert (b - a) * n >= 0;
  }

  lemma QuotientGrows(a: nat, b: nat, n: nat)
    requires n > 0 && a + n <= b
    ensures a / n < b / n
  {
    QuotientBounds(a, n);
    QuotientBounds(b, n);
    if b / n <= a / n {
      Multiplied(b / n, a / n, n);
    }
  }

  // ----- resistance to outliers

  function CountAbove(s: seq<nat>, b: nat): nat {
    if s == [] then 0 else CountAbove(s[..|s| - 1], b) + (if s[|s| - 1] > b then 1 else 0)
  }

  function CountBelow(s: seq<nat>, a: nat): nat {
    if s == [] then 0 else CountBelow(s[..|s| - 1], a) + (if s[|s| - 1] < a then 1 else 0)
  }

  lemma {:induction false} CountsByMultiset(s: seq<nat>, t: seq<nat>, b: nat)
    requires multiset(s) == multiset(t)
    ensures CountAbove(s, b) == CountAbove(t, b) && CountBelow(s, b) == CountBelow(t, b)
    decreases |s|
  {
    assert |s| == |multiset(s)| == |multiset(t)| == |t|;
    if s == [] {
    } else {
      var last := |s| - 1;
      assert s[last] in multiset(t);
      var k :| 0 <= k < |t| && t[k] == s[last];
      RemoveOne(s, last);
      RemoveOne(t, k);
      assert s[..last] + s[last + 1..] == s[..last];
      CountsByMultiset(s[..last], t[..k] + t[k + 1..], b);
      CountsWithout(t, k, b);
    }
  }

  lemma RemoveOne(t: seq<nat>, k: nat)
    requires k < |t|
    ensures multiset(t[..k] + t[k + 1..]) == multiset(t) - multiset{t[k]}
  {
    assert t == t[..k] + [t[k]] + t[k + 1..];
  }

  lemma {:induction false} CountsWithout(t: seq<nat>, k: nat, b: nat)
    requires k < |t|
    ensures CountAbove(t, b) == CountAbove(t[..k] + t[k + 1..], b) + (if t[k] > b then 1 else 0)
    ensures CountBelow(t, b) == CountBelow(t[..k] + t[k + 1..], b) + (if t[k] < b then 1 else 0)
    decreases |t|
  {
    var init := t[..|t| - 1];
    var t' := t[..k] + t[k + 1..];
    if k == |t| - 1 {
      assert t' == init;
    } else {
      CountsWithout(init, k, b);
      assert t'[..|t'| - 1] == init[..k] + init[k + 1..];
      assert t'[|t'| - 1] == t[|t| - 1];
    }
  }

  /** In a sorted list the values above a bound are at the end: how many there are tells where they begin. */
  lemma {:induction false} SortedTail(s: seq<nat>, b: nat, k: nat)
    requires IsSorted(s) && k < |s|
    ensures s[k] > b <==> CountAbove(s, b) >= |s| - k
    decreases |s|
  {
    if k < |s| - 1 {
      SortedTail(s[..|s| - 1], b, k);
    } else if s[k] <= b {
      NoneAbove(s, b);
    }
  }

  lemma {:induction false} NoneAbove(s: seq<nat>, b: nat)
    requires forall i :: 0 <= i < |s| ==> s[i] <= b
    ensures CountAbove(s, b) == 0
    decreases |s|
  {
    if s == [] {
    } else {
      NoneAbove(s[..|s| - 1], b);
    }
  }

  lemma {:induction false} SortedHead(s: seq<nat>, a: nat, k: nat)
    requires IsSorted(s) && k < |s|
    ensures s[k] < a <==> CountBelow(s, a) >= k + 1
    decreases |s|
  {
    BelowAtMostAll(s[..|s| - 1], a);
    if k < |s| - 1 {
      SortedHead(s[..|s| - 1], a, k);
    } else if k > 0 {
      SortedHead(s[..|s| - 1], a, k - 1);
    }
  }

  lemma {:induction false} BelowAtMostAll(s: seq<nat>, a: nat)
    ensures CountBelow(s, a) <= |s|
    decreases |s|
  {
    if s == [] {
    } else {
      BelowAtMostAll(s[..|s| - 1], a);
    }
  }

  lemma {:induction false} SumAtMost(s: seq<nat>, hi: nat)
    requires forall i :: 0 <= i < |s| ==> s[i] <= hi
    ensures Sum(s) <= hi * |s|
    decreases |s|
  {
    if s == [] {
    } else {
      SumAtMost(s[..|s| - 1], hi);
      assert hi * |s| == hi * (|s| - 1) + hi;
    }
  }

  lemma {:induction false} SumAtLeast(s: seq<nat>, lo: nat)
    requires forall i :: 0 <= i < |s| ==> lo <= s[i]
    ensures lo * |s| <= Sum(s)
    decreases |s|
  {
    if s == [] {
    } else {
      SumAtLeast(s[..|s| - 1], lo);
      assert lo * |s| == lo * (|s| - 1) + lo;
    }
  }

  /** No kept value exceeds `hi` if and only if at most half as many as are omitted, rounded up, do. */
  lemma KeptAtMostIff(values: seq<nat>, included: nat, hi: nat)
    requires 1 <= included <= |values|
    ensures (forall i :: 0 <= i < included ==> Kept(values, included)[i] <= hi)
            <==> CountAbove(values, hi) <= (|values| - included + 1) / 2
  {
    hide Sum, Sort, CountAbove;
    SortCorrect(values);
    var sorted, kept := Sort(values), Kept(values, included);
    CountsByMultiset(values, sorted, hi);
    var last := (|values| - included) / 2 + included - 1;
    SortedTail(sorted, hi, last);
    assert kept[included - 1] == sorted[last];
  }

  /** No kept value is below `lo` if and only if at most half as many as are omitted, rounded down, are. */
  lemma KeptAtLeastIff(values: seq<nat>, included: nat, lo: nat)
    requires 1 <= included <= |values|
    ensures (forall i :: 0 <= i < included ==> lo <= Kept(values, included)[i])
            <==> CountBelow(values, lo) <= (|values| - included) / 2
  {
    hide Sum, Sort, CountBelow;
    SortCorrect(values);
    var sorted, kept := Sort(values), Kept(values, included);
    CountsByMultiset(values, sorted, lo);
    var first := (|values| - included) / 2;
    SortedHead(sorted, lo, first);
    assert kept[0] == sorted[first];
  }

  /**
    If at most half as many values as are omitted, rounded up, exceed `hi`, the average does
    not, and neither does the result if the sum is reduced to 64 bits.
   */
  lemma ResistsHighOutliers(values: seq<nat>, included: nat, hi: nat)
    requires 1 <= included <= |values|
    requires CountAbove(values, hi) <= (|values| - included + 1) / 2
    ensures Sum(Kept(values, included)) / included <= hi
    ensures Sum(Kept(values, included)) % U64_LIMIT / included <= hi
  {
    hide Sum, Kept, CountAbove;
    var kept := Kept(values, included);
    KeptAtMostIff(values, included, hi);
    SumAtMost(kept, hi);
    AverageAtMost(Sum(kept), included, hi);
    Reduced(Sum(kept));
    AverageAtMost(Sum(kept) % U64_LIMIT, included, hi);
  }

  /** If at most half as many values as are omitted, rounded down, are below `lo`, the average is not. */
  lemma ResistsLowOutliers(values: seq<nat>, included: nat, lo: nat)
    requires 1 <= included <= |values|
    requires CountBelow(values, lo) <= (|values| - included) / 2
    ensures Sum(Kept(values, included)) / included >= lo
  {
    hide Sum, Kept, CountBelow;
    var kept := Kept(values, included);
    KeptAtLeastIff(values, included, lo);
    SumAtLeast(kept, lo);
    AverageAtLeast(Sum(kept), included, lo);
  }

  lemma Bounds(values: seq<nat>, included: nat)
    requires 1 <= included <= |values|
    ensures var sum := Sum(Kept(values, included));
            && (forall hi: nat :: CountAbove(values, hi) <= (|values| - included + 1) / 2 ==> sum % U64_LIMIT / included <= hi)
            && (sum < U64_LIMIT ==>
                  forall lo: nat :: CountBelow(values, lo) <= (|values| - included) / 2 ==> sum % U64_LIMIT / included >= lo)
  {
    hide Sum, Kept, CountAbove, CountBelow;
    var sum := Sum(Kept(values, included));
    forall hi: nat | CountAbove(values, hi) <= (|values| - included + 1) / 2 ensures sum % U64_LIMIT / included <= hi {
      ResistsHighOutliers(values, included, hi);
    }
    if sum < U64_LIMIT {
      Reduced(sum);
      forall lo: nat | CountBelow(values, lo) <= (|values| - included) / 2 ensures sum % U64_LIMIT / included >= lo {
        ResistsLowOutliers(values, included, lo);
      }
    }
  }

  lemma AverageAtMost(sum: nat, n: nat, hi: nat)
    requires n > 0 && sum <= hi * n
    ensures sum / n <= hi
  {
    QuotientBounds(sum, n);
    if sum / n >= hi + 1 {
      Multiplied(hi + 1, sum / n, n);
    }
  }

  lemma AverageAtLeast(sum: nat, n: nat, lo: nat)
    requires n > 0 && sum >= lo * n
    ensures sum / n >= lo
  {
    QuotientBounds(sum, n);
    if sum / n + 1 <= lo {
      Multiplied(sum / n + 1, lo, n);
    }
  }

  /** The result depends only on which values are reported, not on their order. */
  lemma OrderDoesNotMatter(a: seq<nat>, b: seq<nat>, included: nat)
    requires multiset(a) == multiset(b) && included <= |a|
    ensures |a| == |b| && Kept(a, included) == Kept(b, included)
  {
    SortCorrect(a);
    SortCorrect(b);
    SortedIsUnique(Sort(a), Sort(b));
  }
}
