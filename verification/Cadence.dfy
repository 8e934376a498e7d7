/**
 The cadence estimate of crawl/schedule.go: the median of the positive gaps between
 publication dates. Dates are instants in nanoseconds.
 */
module Cadence {
  import opened Prelude
  import opened Sorting

  /** The positive differences between neighbours, in order. */
  function Gaps(s: seq<int>): (g: seq<int>)
    ensures |g| < |s| || (|g| == |s| == 0)
  {
    if |s| < 2 then []
    else (if s[1] - s[0] > 0 then [s[1] - s[0]] else []) + Gaps(s[1..])
  }

  /** The middle element, or the floor of the mean of the two middle ones. */
  function Median(g: seq<int>): int
    requires g != []
  {
    if |g| % 2 == 1 then g[|g| / 2] else (g[|g| / 2 - 1] + g[|g| / 2]) / 2
  }

  function MedianOfGaps(gaps: seq<int>): int {
    if gaps == [] then 0 else Median(Sort(gaps))
  }

  /** What medianGap returns: 0 when there are no two different dates. */
  function MedianGap(dates: seq<int>): int {
    MedianOfGaps(Gaps(Sort(dates)))
  }

  lemma {:induction false} GapsArePositive(s: seq<int>)
    ensures forall k :: 0 <= k < |Gaps(s)| ==> Gaps(s)[k] > 0
  {
    if |s| >= 2 {
      GapsArePositive(s[1..]);
    }
  }

  /** The gap between two neighbours, if it is positive. */
  function Gap(earlier: int, later: int): seq<int> {
    if later - earlier > 0 then [later - earlier] else []
  }

  lemma GapsOfCons(s: seq<int>, rest: seq<int>)
    requires |s| >= 2 && rest == s[1..]
    ensures Gaps(s) == Gap(s[0], s[1]) + Gaps(rest)
  {
  }

  lemma Reassociate(a: seq<int>, b: seq<int>, c: seq<int>)
    ensures (a + b) + c == a + (b + c)
  {
  }

  lemma {:induction false} GapsExtend(s: seq<int>, x: int)
    requires s != []
    ensures Gaps(s + [x]) == Gaps(s) + Gap(s[|s| - 1], x)
  {
    GapsOfCons(s + [x], (s + [x])[1..]);
    if |s| == 1 {
      assert (s + [x])[1..] == [x];
    } else {
      GapsExtend(s[1..], x);
      assert (s + [x])[1..] == s[1..] + [x];
      GapsOfCons(s, s[1..]);
      Reassociate(Gap(s[0], s[1]), Gaps(s[1..]), Gap(s[|s| - 1], x));
    }
  }

  /** The positive gaps between neighbours, in order. */
  method CollectGaps(sorted: array<int>) returns (gaps: seq<int>)
    requires sorted.Length >= 1
    ensures gaps == Gaps(sorted[..])
  {
    gaps := [];
    var i := 1;
    while i < sorted.Length
      invariant 1 <= i <= sorted.Length
      invariant gaps == Gaps(sorted[..i])
    {
      var gap := sorted[i] - sorted[i - 1];
      GapsExtend(sorted[..i], sorted[i]);
      assert sorted[..i] + [sorted[i]] == sorted[..i + 1];
      if gap > 0 {
        gaps := gaps + [gap];
      }
      i := i + 1;
    }
    assert sorted[..i] == sorted[..];
  }

  /** medianGap as the source runs it: copy, sort in place, append gaps, sort in place, pick. */
  method ComputeMedianGap(dates: seq<int>) returns (median: int)
    ensures median == MedianGap(dates)
    ensures median >= 0
  {
    if |dates| < 2 {
      assert |Sort(dates)| < 2;
      return 0;
    }
    var sorted := new int[|dates|](i requires 0 <= i < |dates| => dates[i]);
    assert sorted[..] == dates;
    SortInPlace(sorted);
    ghost var s := sorted[..];
    assert s == Sort(dates);

    var gaps := CollectGaps(sorted);
    if |gaps| == 0 {
      return 0;
    }

    var ordered := new int[|gaps|](i requires 0 <= i < |gaps| => gaps[i]);
    assert ordered[..] == gaps;
    SortInPlace(ordered);
    SortedGapsArePositive(s);
    ghost var o := ordered[..];
    assert o == Sort(gaps);
    var middle := ordered.Length / 2;
    if ordered.Length % 2 == 1 {
      return ordered[middle];
    }
    return (ordered[middle - 1] + ordered[middle]) / 2;
  }

  lemma SortedGapsArePositive(s: seq<int>)
    ensures forall k :: 0 <= k < |Sort(Gaps(s))| ==> Sort(Gaps(s))[k] > 0
  {
    GapsArePositive(s);
    SortMembers(Gaps(s));
    forall k | 0 <= k < |Sort(Gaps(s))| ensures Sort(Gaps(s))[k] > 0 {
      assert Sort(Gaps(s))[k] in Gaps(s);
    }
  }

  // ---- The estimate is a function of the set of dates ----

  /** Keeps one of each run of equal neighbours. */
  function Dedup(s: seq<int>): seq<int> {
    if |s| < 2 then s
    else if s[0] == s[1] then Dedup(s[1..])
    else [s[0]] + Dedup(s[1..])
  }

  lemma {:induction false} DedupCorrect(s: seq<int>)
    requires Sorted(s)
    ensures Increasing(Dedup(s))
    ensures forall x :: x in Dedup(s) <==> x in s
    ensures s != [] ==> Dedup(s) != [] && Dedup(s)[0] == s[0]
  {
    if |s| >= 2 {
      var t := s[1..];
      DedupCorrect(t);
      assert s == [s[0]] + t;
      if s[0] != s[1] {
        var d := Dedup(t);
        forall k | 0 <= k < |d| ensures s[0] < d[k] {
          assert d[k] in t;
        }
      }
    }
  }

  lemma {:induction false} DedupKeepsGaps(s: seq<int>)
    requires Sorted(s)
    ensures Gaps(Dedup(s)) == Gaps(s)
  {
    if |s| >= 2 {
      DedupKeepsGaps(s[1..]);
      DedupCorrect(s[1..]);
      if s[0] != s[1] {
        assert Dedup(s)[1..] == Dedup(s[1..]);
      }
    }
  }

  /** Order and repetition of the dates do not matter, only which dates there are. */
  lemma MedianGapDependsOnSet(a: seq<int>, b: seq<int>)
    requires forall x :: x in a <==> x in b
    ensures MedianGap(a) == MedianGap(b)
  {
    SortCorrect(a);
    SortCorrect(b);
    SortMembers(a);
    SortMembers(b);
    DedupCorrect(Sort(a));
    DedupCorrect(Sort(b));
    IncreasingUnique(Dedup(Sort(a)), Dedup(Sort(b)));
    DedupKeepsGaps(Sort(a));
    DedupKeepsGaps(Sort(b));
  }

  predicate AllEqual(dates: seq<int>) {
    forall i, j :: 0 <= i < j < |dates| ==> dates[i] == dates[j]
  }

  /** Neighbouring dates that strictly increase are all apart by their differences. */
  function Differences(d: seq<int>): (t: seq<int>)
    requires d != []
    ensures |t| == |d| - 1
    ensures forall i :: 0 <= i < |t| ==> t[i] == d[i + 1] - d[i]
  {
    seq(|d| - 1, i requires 0 <= i < |d| - 1 => d[i + 1] - d[i])
  }

  lemma DifferencesOfCons(d: seq<int>, rest: seq<int>)
    requires |d| >= 2 && rest == d[1..]
    ensures Differences(d) == [d[1] - d[0]] + Differences(rest)
  {
  }

  lemma {:induction false} GapsOfIncreasing(d: seq<int>)
    requires Increasing(d) && d != []
    ensures Gaps(d) == Differences(d)
  {
    if |d| >= 2 {
      var rest := d[1..];
      assert Increasing(rest);
      GapsOfIncreasing(rest);
      GapsOfCons(d, rest);
      DifferencesOfCons(d, rest);
    }
  }

  /** The middle one of an odd number of values, the mean of the two middle ones of an even number. */
  predicate IsMiddle(t: seq<int>, m: int)
    requires t != []
  {
    var n := |t|;
    if n % 2 == 1 then m == t[(n - 1) / 2]
    else 2 * m <= t[n / 2 - 1] + t[n / 2] <= 2 * m + 1
  }

  lemma SortIs(s: seq<int>, t: seq<int>)
    requires Sorted(t) && multiset(t) == multiset(s)
    ensures Sort(s) == t
  {
    SortCorrect(s);
    SortedUnique(Sort(s), t);
  }

  lemma GapOfIncreasing(d: seq<int>)
    requires Increasing(d)
    ensures MedianGap(d) == if |d| < 2 then 0 else Median(Sort(Differences(d)))
  {
    SortIs(d, d);
    if d != [] {
      GapsOfIncreasing(d);
      SortCorrect(Differences(d));
    }
  }

  /**
   What is computed: with the different dates in order d, and the differences between neighbours
   in order t, the middle of t; and 0 when there are fewer than two different dates.
   */
  lemma MedianGapIsMiddle(dates: seq<int>, d: seq<int>, t: seq<int>)
    requires Increasing(d) && forall x :: x in d <==> x in dates
    requires d != [] ==> Sorted(t) && multiset(t) == multiset(Differences(d))
    ensures |d| < 2 ==> MedianGap(dates) == 0
    ensures |d| >= 2 ==> |t| == |d| - 1 && IsMiddle(t, MedianGap(dates))
  {
    MedianGapDependsOnSet(dates, d);
    GapOfIncreasing(d);
    if |d| >= 2 {
      SortIs(Differences(d), t);
      SortLength(Differences(d), t);
      MedianIsMiddle(t);
    }
  }

  lemma MedianIsMiddle(t: seq<int>)
    requires t != []
    ensures IsMiddle(t, Median(t))
  {
  }

  lemma SortLength(s: seq<int>, t: seq<int>)
    requires multiset(t) == multiset(s)
    ensures |t| == |s|
  {
    assert |multiset(t)| == |t| && |multiset(s)| == |s|;
  }

  lemma PositiveMedian(s: seq<int>)
    requires s != [] && forall x :: x in s ==> x > 0
    ensures Sort(s) != [] && Median(Sort(s)) > 0
  {
    SortMembers(s);
    SortCorrect(s);
    SortLength(s, Sort(s));
    var t := Sort(s);
    assert t[|t| / 2] in t && t[if |t| >= 2 then |t| / 2 - 1 else 0] in t;
  }

  /** Two different dates are two different members of the same dates in order. */
  lemma DifferentDates(dates: seq<int>, d: seq<int>)
    requires Increasing(d) && forall x :: x in d <==> x in dates
    ensures AllEqual(dates) <==> |d| < 2
  {
    if |d| >= 2 {
      assert d[0] in dates && d[1] in dates && d[0] != d[1];
    }
    if i, j :| 0 <= i < j < |dates| && dates[i] != dates[j] {
      assert dates[i] in d && dates[j] in d;
    }
  }

  /** There is a cadence to measure if and only if two dates differ. */
  lemma GapExactlyWhenDifferent(dates: seq<int>)
    ensures if AllEqual(dates) then MedianGap(dates) == 0 else MedianGap(dates) > 0
  {
    var d := Dedup(Sort(dates));
    SortCorrect(dates);
    SortMembers(dates);
    DedupCorrect(Sort(dates));
    DifferentDates(dates, d);
    MedianGapDependsOnSet(dates, d);
    GapOfIncreasing(d);
    if |d| >= 2 {
      PositiveMedian(Differences(d));
    }
  }

  // ---- Robustness against one outlier ----

  /** Inserting y into an ascending sequence moves no rank by more than one place. */
  lemma {:induction false} InsertRanks(y: int, g: seq<int>, k: nat)
    requires Sorted(g) && k <= |g|
    ensures k > 0 ==> g[k - 1] <= Insert(y, g)[k]
    ensures k < |g| ==> Insert(y, g)[k] <= g[k]
  {
    if g != [] && y > g[0] && k > 0 {
      InsertRanks(y, g[1..], k - 1);
    }
  }

  lemma {:induction false} InsertIsSort(y: int, g: seq<int>, h: seq<int>)
    requires multiset(h) == multiset(g) + multiset{y}
    ensures Sort(h) == Insert(y, Sort(g))
  {
    SortCorrect(g);
    SortCorrect(h);
    InsertSorted(y, Sort(g));
    InsertMultiset(y, Sort(g));
    SortedUnique(Sort(h), Insert(y, Sort(g)));
  }

  lemma {:induction false} InsertBelowLargest(y: int, s: seq<int>, x: int)
    requires y < x
    ensures Insert(y, s + [x]) == Insert(y, s) + [x]
  {
    if s != [] && y > s[0] {
      assert (s + [x])[1..] == s[1..] + [x];
      InsertBelowLargest(y, s[1..], x);
    }
  }

  ghost predicate Earliest(dates: seq<int>, x: int) {
    forall d :: d in dates ==> x < d
  }

  ghost predicate Latest(dates: seq<int>, x: int) {
    forall d :: d in dates ==> d < x
  }

  lemma {:induction false} SortAppendLargest(dates: seq<int>, x: int)
    requires Latest(dates, x)
    ensures Sort(dates + [x]) == Sort(dates) + [x]
  {
    if dates != [] {
      assert (dates + [x])[1..] == dates[1..] + [x];
      assert dates[0] in dates && forall d :: d in dates[1..] ==> d in dates;
      SortAppendLargest(dates[1..], x);
      InsertBelowLargest(dates[0], Sort(dates[1..]), x);
    }
  }

  lemma {:induction false} SortAppendSmallest(dates: seq<int>, x: int)
    requires Earliest(dates, x)
    ensures Sort(dates + [x]) == [x] + Sort(dates)
  {
    if dates != [] {
      assert (dates + [x])[1..] == dates[1..] + [x];
      assert dates[0] in dates && forall d :: d in dates[1..] ==> d in dates;
      SortAppendSmallest(dates[1..], x);
      assert ([x] + Sort(dates[1..]))[1..] == Sort(dates[1..]);
    }
  }

  lemma SortedFrom(dates: seq<int>, i: nat)
    requires i < |dates|
    ensures Sort(dates)[i] in dates
  {
    SortCorrect(dates);
    assert Sort(dates)[i] in multiset(Sort(dates));
  }

  lemma EndsOfSorted(dates: seq<int>, x: int)
    requires dates != []
    ensures Earliest(dates, x) ==> x < Sort(dates)[0]
    ensures Latest(dates, x) ==> Sort(dates)[|dates| - 1] < x
  {
    SortedFrom(dates, 0);
    SortedFrom(dates, |dates| - 1);
  }

  lemma GapsPrepend(s: seq<int>, x: int)
    requires s != [] && x < s[0]
    ensures Gaps([x] + s) == [s[0] - x] + Gaps(s)
  {
    GapsOfCons([x] + s, s);
  }

  /** An older date goes to the front and opens one gap; the other gaps stay. */
  lemma EarlierDateAddsOneGap(dates: seq<int>, x: int)
    requires dates != [] && Earliest(dates, x)
    ensures Gaps(Sort(dates + [x])) == [Sort(dates)[0] - x] + Gaps(Sort(dates))
  {
    SortAppendSmallest(dates, x);
    EndsOfSorted(dates, x);
    GapsPrepend(Sort(dates), x);
  }

  lemma GapsAppend(s: seq<int>, x: int)
    requires s != [] && s[|s| - 1] < x
    ensures Gaps(s + [x]) == Gaps(s) + [x - s[|s| - 1]]
  {
    GapsExtend(s, x);
  }

  /** A newer date goes to the end and opens one gap. */
  lemma LaterDateAddsOneGap(dates: seq<int>, x: int)
    requires dates != [] && Latest(dates, x)
    ensures Gaps(Sort(dates + [x])) == Gaps(Sort(dates)) + [x - Sort(dates)[|dates| - 1]]
  {
    SortAppendLargest(dates, x);
    EndsOfSorted(dates, x);
    GapsAppend(Sort(dates), x);
  }

  lemma MedianOfInsert(y: int, g: seq<int>)
    requires Sorted(g) && |g| >= 2
    ensures g[|g| / 2 - 1] <= Median(Insert(y, g)) <= g[(|g| + 1) / 2]
  {
    var n := |g|;
    InsertRanks(y, g, n / 2);
    if n % 2 == 1 {
      InsertRanks(y, g, n / 2 + 1);
    }
    MedianOfMore(g, Insert(y, g));
  }

  lemma MedianOfMore(g: seq<int>, h: seq<int>)
    requires Sorted(g) && |g| >= 2 && |h| == |g| + 1
    requires g[|g| / 2 - 1] <= h[|g| / 2] <= g[|g| / 2]
    requires |g| % 2 == 1 ==> g[|g| / 2] <= h[|g| / 2 + 1] <= g[|g| / 2 + 1]
    ensures g[|g| / 2 - 1] <= Median(h) <= g[(|g| + 1) / 2]
  {
  }

  /** m lies between the two gaps adjacent to the middle of the sorted gaps. */
  ghost predicate NearMiddle(gaps: seq<int>, m: int) {
    && |gaps| >= 2
    && Sort(gaps)[|gaps| / 2 - 1] <= m <= Sort(gaps)[(|gaps| + 1) / 2]
  }

  /** One more gap, wherever it falls among the sorted ones, keeps the median there. */
  lemma ExtraGapMovesOneRank(gaps: seq<int>, more: seq<int>, y: int)
    requires |gaps| >= 2
    requires more == [y] + gaps || more == gaps + [y]
    ensures NearMiddle(gaps, MedianOfGaps(more))
  {
    InsertIsSort(y, gaps, more);
    SortCorrect(gaps);
    MedianOfInsert(y, Sort(gaps));
  }

  lemma ManyGapsManyDates(dates: seq<int>)
    requires |Gaps(Sort(dates))| >= 2
    ensures dates != []
  {
  }

  lemma EarlierOutlier(dates: seq<int>, x: int)
    requires dates != [] && |Gaps(Sort(dates))| >= 2 && Earliest(dates, x)
    ensures NearMiddle(Gaps(Sort(dates)), MedianOfGaps(Gaps(Sort(dates + [x]))))
  {
    EarlierDateAddsOneGap(dates, x);
    ExtraGapMovesOneRank(Gaps(Sort(dates)), Gaps(Sort(dates + [x])), Sort(dates)[0] - x);
  }

  lemma LaterOutlier(dates: seq<int>, x: int)
    requires dates != [] && |Gaps(Sort(dates))| >= 2 && Latest(dates, x)
    ensures NearMiddle(Gaps(Sort(dates)), MedianOfGaps(Gaps(Sort(dates + [x]))))
  {
    LaterDateAddsOneGap(dates, x);
    ExtraGapMovesOneRank(Gaps(Sort(dates)), Gaps(Sort(dates + [x])), x - Sort(dates)[|dates| - 1]);
  }

  /**
   However far away one added date lies, the new median stays between the two old gaps
   adjacent to the middle.
   */
  lemma OutlierMovesOneRank(dates: seq<int>, x: int)
    requires |Gaps(Sort(dates))| >= 2
    requires Earliest(dates, x) || Latest(dates, x)
    ensures NearMiddle(Gaps(Sort(dates)), MedianGap(dates + [x]))
  {
    ManyGapsManyDates(dates);
    if Earliest(dates, x) {
      EarlierOutlier(dates, x);
    } else {
      LaterOutlier(dates, x);
    }
  }

  // ---- A regular show ----

  /** How many times x occurs. */
  function Occurrences(s: seq<int>, x: int): nat {
    if s == [] then 0 else (if s[0] == x then 1 else 0) + Occurrences(s[1..], x)
  }

  lemma {:induction false} OccurrencesIsMultiplicity(s: seq<int>, x: int)
    ensures Occurrences(s, x) == multiset(s)[x]
  {
    if s != [] {
      OccurrencesIsMultiplicity(s[1..], x);
      assert s == [s[0]] + s[1..];
    }
  }

  lemma {:induction false} OccurrencesUpTo(s: seq<int>, x: int, k: nat)
    requires k <= |s| && forall i :: k <= i < |s| ==> s[i] != x
    ensures Occurrences(s, x) <= k
  {
    if s != [] {
      OccurrencesUpTo(s[1..], x, if k == 0 then 0 else k - 1);
    }
  }

  lemma {:induction false} OccurrencesFrom(s: seq<int>, x: int, k: nat)
    requires k <= |s| && forall i :: 0 <= i < k ==> s[i] != x
    ensures Occurrences(s, x) <= |s| - k
  {
    if s != [] {
      OccurrencesFrom(s[1..], x, if k == 0 then 0 else k - 1);
    }
  }

  /** In ascending order, a value taken by more than half of the elements fills the middle. */
  lemma MajorityFillsMiddle(s: seq<int>, x: int, k: nat)
    requires Sorted(s) && 2 * Occurrences(s, x) > |s|
    requires |s| - 1 <= 2 * k <= |s|
    ensures k < |s| && s[k] == x
  {
    assert s == [] ==> Occurrences(s, x) == 0;
    if s[k] < x {
      OccurrencesFrom(s, x, k + 1);
    } else if s[k] > x {
      OccurrencesUpTo(s, x, k);
    }
  }

  lemma {:induction false} MajorityIsPresent(s: seq<int>, x: int)
    requires 2 * Occurrences(s, x) > |s|
    ensures x in s
  {
    if x !in s {
      OccurrencesUpTo(s, x, 0);
    }
  }

  /** When most of the gaps are the same one, no burst or back-catalogue entry hides it. */
  lemma MajorityGapIsMedian(dates: seq<int>, gap: int)
    requires 2 * Occurrences(Gaps(Sort(dates)), gap) > |Gaps(Sort(dates))|
    ensures MedianGap(dates) == gap
  {
    var gaps := Gaps(Sort(dates));
    SortCorrect(gaps);
    OccurrencesIsMultiplicity(gaps, gap);
    OccurrencesIsMultiplicity(Sort(gaps), gap);
    MedianOfMajority(Sort(gaps), gap);
  }

  lemma MedianOfMajority(s: seq<int>, x: int)
    requires Sorted(s) && 2 * Occurrences(s, x) > |s|
    ensures s != [] && Median(s) == x
  {
    MajorityFillsMiddle(s, x, |s| / 2);
    if |s| % 2 == 0 {
      OtherMiddle(s, x);
    }
  }

  lemma OtherMiddle(s: seq<int>, x: int)
    requires Sorted(s) && 2 * Occurrences(s, x) > |s| && |s| % 2 == 0
    ensures |s| >= 2 && s[|s| / 2 - 1] == x
  {
    var k := |s| / 2;
    MajorityFillsMiddle(s, x, k);
    assert s[k - 1] != x ==> forall i :: 0 <= i < k ==> s[i] != x;
    if s[k - 1] != x {
      OccurrencesFrom(s, x, k);
    }
  }

  // ---- Span bound ----

  function Sum(s: seq<int>): int {
    if s == [] then 0 else s[0] + Sum(s[1..])
  }

  /** Gaps telescope: they add up to the time between the first and the last date. */
  lemma {:induction false} GapsTelescope(s: seq<int>)
    requires Sorted(s) && s != []
    ensures Sum(Gaps(s)) == s[|s| - 1] - s[0]
  {
    if |s| >= 2 {
      GapsTelescope(s[1..]);
      var first := if s[1] - s[0] > 0 then [s[1] - s[0]] else [];
      assert first != [] ==> Gaps(s)[1..] == Gaps(s[1..]);
      assert first == [] ==> Gaps(s) == Gaps(s[1..]);
    }
  }

  lemma {:induction false} SumInsert(x: int, s: seq<int>)
    ensures Sum(Insert(x, s)) == x + Sum(s)
  {
    if s == [] || x <= s[0] {
      assert Insert(x, s)[1..] == s;
    } else {
      SumInsert(x, s[1..]);
      assert Insert(x, s)[1..] == Insert(x, s[1..]);
    }
  }

  lemma {:induction false} SumSort(s: seq<int>)
    ensures Sum(Sort(s)) == Sum(s)
  {
    if s != [] {
      SumSort(s[1..]);
      SumInsert(s[0], Sort(s[1..]));
    }
  }

  /** The elements from rank k on are all at least s[k], the earlier ones at least 0. */
  lemma {:induction false} TailBound(s: seq<int>, k: nat, m: int)
    requires Sorted(s) && k <= |s|
    requires forall i :: 0 <= i < |s| ==> s[i] >= 0
    requires k < |s| ==> s[k] >= m
    ensures Sum(s) >= m * (|s| - k)
  {
    if s == [] {
    } else if k == 0 {
      TailBound(s[1..], 0, m);
      assert m * |s| == m * (|s| - 1) + m;
    } else {
      TailBound(s[1..], k - 1, m);
    }
  }

  lemma {:induction false} PairBound(s: seq<int>, k: nat)
    requires k + 1 < |s|
    requires forall i :: 0 <= i < |s| ==> s[i] >= 0
    ensures s[k] + s[k + 1] <= Sum(s)
  {
    if k == 0 {
      NonNegativeSum(s[2..]);
      assert s[1..][1..] == s[2..];
    } else {
      PairBound(s[1..], k - 1);
    }
  }

  lemma {:induction false} NonNegativeSum(s: seq<int>)
    requires forall i :: 0 <= i < |s| ==> s[i] >= 0
    ensures Sum(s) >= 0
  {
    if s != [] {
      NonNegativeSum(s[1..]);
    }
  }

  lemma MedianWithinSum(gaps: seq<int>)
    requires gaps != []
    requires forall i :: 0 <= i < |gaps| ==> gaps[i] >= 0
    requires Sorted(gaps)
    ensures Median(gaps) * ((|gaps| + 1) / 2) <= Sum(gaps)
    ensures |gaps| >= 2 ==> gaps[|gaps| / 2 - 1] + gaps[|gaps| / 2] <= Sum(gaps)
  {
    TailBound(gaps, |gaps| / 2, Median(gaps));
    assert |gaps| - |gaps| / 2 == (|gaps| + 1) / 2;
    if |gaps| >= 2 {
      PairBound(gaps, |gaps| / 2 - 1);
    }
  }

  lemma GapsSumToSpan(dates: seq<int>)
    requires dates != []
    ensures Sum(Sort(Gaps(Sort(dates)))) == Sort(dates)[|dates| - 1] - Sort(dates)[0]
  {
    SortCorrect(dates);
    GapsTelescope(Sort(dates));
    SumSort(Gaps(Sort(dates)));
  }

  /**
   The median times half the number of gaps, rounded up, fits in the span of the dates, and
   so does the sum of the two middle gaps: the addition before halving cannot overflow when
   the span itself is an int64.
   */
  lemma MedianWithinSpan(dates: seq<int>)
    requires dates != []
    ensures
      var s := Sort(dates);
      var g := Sort(Gaps(s));
      var span := s[|s| - 1] - s[0];
      && (g == [] ==> span == 0)
      && (g != [] ==> MedianGap(dates) * ((|g| + 1) / 2) <= span)
      && (|g| >= 2 ==> g[|g| / 2 - 1] + g[|g| / 2] <= span)
  {
    var g := Sort(Gaps(Sort(dates)));
    GapsSumToSpan(dates);
    SortCorrect(Gaps(Sort(dates)));
    SortedGapsArePositive(Sort(dates));
    if g != [] {
      MedianWithinSum(g);
    }
  }
}
