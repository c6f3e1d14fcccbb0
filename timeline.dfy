/**
 * The timeline series: `groupby('Issue Date').sum()` over the filtered rows,
 * `rolling(3, 1, center=True).mean()` over that series, and the optional
 * `reindex` onto a fixed x-axis.
 */
module Timeline {
  import opened Wrappers
  import opened Tickets

  /** Strictly ascending months, as a `groupby` index is. */
  predicate Ascending(ms: seq<Month>) {
    forall i, j :: 0 <= i < j < |ms| ==> ms[i] < ms[j]
  }

  /** Put `m` into its place in an ascending sequence, unless it is there already. */
  function Insert(ms: seq<Month>, m: Month): (r: seq<Month>)
    requires Ascending(ms)
    ensures Ascending(r)
    ensures forall x :: x in r <==> x in ms || x == m
  {
    if ms == [] then [m]
    else if m < ms[0] then [m] + ms
    else if m == ms[0] then ms
    else
      assert Ascending(ms[1..]) by {
        forall i, j | 0 <= i < j < |ms[1..]| ensures ms[1..][i] < ms[1..][j] {
          assert ms[1..][i] == ms[i + 1] && ms[1..][j] == ms[j + 1];
        }
      }
      var t := Insert(ms[1..], m);
      assert forall x :: x in t ==> ms[0] < x;
      PrependAscending(ms[0], t);
      [ms[0]] + t
  }

  /** A month below every month of an ascending sequence can go in front of it. */
  lemma PrependAscending(x: Month, t: seq<Month>)
    requires Ascending(t)
    requires forall y :: y in t ==> x < y
    ensures Ascending([x] + t)
  {
    var u := [x] + t;
    forall i, j | 0 <= i < j < |u| ensures u[i] < u[j] {
      assert u[j] == t[j - 1];
      if i > 0 {
        assert u[i] == t[i - 1];
      } else {
        assert t[j - 1] in t;
      }
    }
  }

  /** Month `m` labels at least one of the rows. */
  predicate OccursIn(facts: seq<Fact>, m: Month) {
    exists f :: f in facts && f.month == m
  }

  /** The months that occur in the rows, ascending: the index of `groupby('Issue Date')`. */
  function MonthsOf(facts: seq<Fact>): (r: seq<Month>)
    ensures Ascending(r)
    ensures forall m :: m in r <==> OccursIn(facts, m)
  {
    if facts == [] then []
    else
      var rest := MonthsOf(facts[1..]);
      assert forall m :: OccursIn(facts, m) <==> m == facts[0].month || OccursIn(facts[1..], m) by {
        forall m ensures OccursIn(facts, m) <==> m == facts[0].month || OccursIn(facts[1..], m) {
          if OccursIn(facts, m) && m != facts[0].month {
            var f :| f in facts && f.month == m;
            assert f in facts[1..];
          }
          if OccursIn(facts[1..], m) {
            var f :| f in facts[1..] && f.month == m;
            assert f in facts;
          }
        }
      }
      Insert(rest, facts[0].month)
  }

  /** The summed ticket count of each month in `ms`: the values of the `groupby` result. */
  function MonthTotals(facts: seq<Fact>, ms: seq<Month>): (r: seq<nat>)
    ensures |r| == |ms|
    ensures forall i :: 0 <= i < |ms| ==> r[i] == MonthTotal(facts, ms[i])
  {
    seq(|ms|, i requires 0 <= i < |ms| => MonthTotal(facts, ms[i]))
  }

  /**
   * The centred window of 3 around row `i`, cut off at both ends of the
   * series (`min_periods=1`): rows `i-1`, `i` and `i+1`, those that exist.
   */
  function WindowStart(i: nat): nat {
    if i == 0 then 0 else i - 1
  }

  function WindowEnd(n: nat, i: nat): nat {
    if i + 2 <= n then i + 2 else n
  }

  /** The sum of the rows of the window around row `i`. */
  function WindowSum(xs: seq<nat>, i: nat): (r: nat)
    requires i < |xs|
    ensures 0 < i < |xs| - 1 ==> r == xs[i - 1] + xs[i] + xs[i + 1]
    ensures |xs| >= 2 && i == 0 ==> r == xs[0] + xs[1]
    ensures |xs| >= 2 && i == |xs| - 1 ==> r == xs[i - 1] + xs[i]
    ensures |xs| == 1 ==> r == xs[0]
  {
    var lo, hi := WindowStart(i), WindowEnd(|xs|, i);
    if 0 < i < |xs| - 1 then
      assert xs[lo..hi] == [xs[i - 1], xs[i], xs[i + 1]];
      SumOfThree(xs[i - 1], xs[i], xs[i + 1]);
      Sum(xs[lo..hi])
    else if |xs| >= 2 && i == 0 then
      assert xs[lo..hi] == [xs[0], xs[1]];
      SumOfTwo(xs[0], xs[1]);
      Sum(xs[lo..hi])
    else if |xs| >= 2 then
      assert xs[lo..hi] == [xs[i - 1], xs[i]];
      SumOfTwo(xs[i - 1], xs[i]);
      Sum(xs[lo..hi])
    else
      assert xs[lo..hi] == [xs[0]];
      SumOfOne(xs[0]);
      Sum(xs[lo..hi])
  }

  /**
   * The mean of the rows of the window around row `i`: an inner row averages
   * three rows, an end row two, and the row of a one-row series is itself.
   */
  function WindowMean(xs: seq<nat>, i: nat): (r: real)
    requires i < |xs|
    ensures 0 < i < |xs| - 1 ==> r == (xs[i - 1] + xs[i] + xs[i + 1]) as real / 3.0
    ensures |xs| >= 2 && i == 0 ==> r == (xs[0] + xs[1]) as real / 2.0
    ensures |xs| >= 2 && i == |xs| - 1 ==> r == (xs[i - 1] + xs[i]) as real / 2.0
    ensures |xs| == 1 ==> r == xs[0] as real
  {
    WindowSum(xs, i) as real / (WindowEnd(|xs|, i) - WindowStart(i)) as real
  }

  /**
   * `rolling(3, 1, center=True).mean()`: each row becomes the mean of itself
   * and its existing neighbouring ROWS, whatever months those rows carry.
   */
  function Rolling(xs: seq<nat>): (r: seq<real>)
    ensures |r| == |xs|
    ensures forall i :: 0 <= i < |xs| ==> r[i] == WindowMean(xs, i)
  {
    seq(|xs|, i requires 0 <= i < |xs| => WindowMean(xs, i))
  }

  lemma SumOfOne(a: nat)
    ensures Sum([a]) == a
  {
    assert [a][1..] == [];
  }

  lemma SumOfTwo(a: nat, b: nat)
    ensures Sum([a, b]) == a + b
  {
    assert [a, b][1..] == [b];
    SumOfOne(b);
  }

  lemma SumOfThree(a: nat, b: nat, c: nat)
    ensures Sum([a, b, c]) == a + b + c
  {
    assert [a, b, c][1..] == [b, c];
    SumOfTwo(b, c);
  }

  /** A smoothed point lies between the smallest and the largest row of its window. */
  lemma RollingWithinWindow(xs: seq<nat>, i: nat, low: nat, high: nat)
    requires i < |xs|
    requires forall k :: WindowStart(i) <= k < WindowEnd(|xs|, i) ==> low <= xs[k] <= high
    ensures low as real <= Rolling(xs)[i] <= high as real
  {
  }

  /** Smoothing a constant series changes nothing. */
  lemma RollingKeepsConstant(xs: seq<nat>, c: nat)
    requires forall k :: 0 <= k < |xs| ==> xs[k] == c
    ensures forall i :: 0 <= i < |xs| ==> Rolling(xs)[i] == c as real
  {
    forall i | 0 <= i < |xs| ensures Rolling(xs)[i] == c as real {
      RollingWithinWindow(xs, i, c, c);
    }
  }

  /** One point of the timeline: a month and its (smoothed) ticket count. */
  datatype Point = Point(month: Month, value: real)

  function MonthsOfSeries(s: seq<Point>): (r: seq<Month>)
    ensures |r| == |s|
    ensures forall i :: 0 <= i < |s| ==> r[i] == s[i].month
  {
    seq(|s|, i requires 0 <= i < |s| => s[i].month)
  }

  /**
   * The smoothed monthly series of the rows: one point per month that occurs
   * in them, ascending, each the window mean of the monthly sums.
   */
  function Smoothed(facts: seq<Fact>): (r: seq<Point>)
    ensures MonthsOfSeries(r) == MonthsOf(facts)
    ensures Ascending(MonthsOfSeries(r))
    ensures forall i :: 0 <= i < |r| ==> r[i].value == WindowMean(MonthTotals(facts, MonthsOf(facts)), i)
  {
    var ms := MonthsOf(facts);
    var ys := Rolling(MonthTotals(facts, ms));
    var r := seq(|ms|, i requires 0 <= i < |ms| => Point(ms[i], ys[i]));
    assert MonthsOfSeries(r) == ms;
    r
  }

  /** The value of month `m` in an ascending series, or `None` when the series has no such month. */
  function ValueAt(s: seq<Point>, m: Month): (r: Option<real>)
    requires Ascending(MonthsOfSeries(s))
    ensures r.None? <==> m !in MonthsOfSeries(s)
    ensures forall k :: 0 <= k < |s| && s[k].month == m ==> r == Some(s[k].value)
  {
    if s == [] then None
    else if s[0].month == m then
      assert forall k :: 0 < k < |s| ==> MonthsOfSeries(s)[0] < MonthsOfSeries(s)[k];
      Some(s[0].value)
    else
      var tail := MonthsOfSeries(s[1..]);
      assert tail == MonthsOfSeries(s)[1..];
      ValueAt(s[1..], m)
  }

  /**
   * `.reindex(axis)`: the series read at every month of the axis, `None`
   * (NaN) where the series has no point for that month.
   */
  function Align(axis: seq<Month>, s: seq<Point>): (r: seq<Option<real>>)
    requires Ascending(MonthsOfSeries(s))
    ensures |r| == |axis|
    ensures forall i :: 0 <= i < |axis| ==> (r[i].None? <==> axis[i] !in MonthsOfSeries(s))
    ensures forall i, k :: 0 <= i < |axis| && 0 <= k < |s| && s[k].month == axis[i] ==> r[i] == Some(s[k].value)
  {
    seq(|axis|, i requires 0 <= i < |axis| => ValueAt(s, axis[i]))
  }

  /**
   * Aligning the smoothed series of some rows onto that series' own months
   * loses nothing: every axis point has a value, the smoothed one.
   */
  lemma AlignOntoOwnMonths(facts: seq<Fact>)
    ensures Align(MonthsOf(facts), Smoothed(facts)) ==
            seq(|Smoothed(facts)|, i requires 0 <= i < |Smoothed(facts)| => Some(Smoothed(facts)[i].value))
  {
    var s := Smoothed(facts);
    var a := Align(MonthsOf(facts), s);
    forall i | 0 <= i < |s| ensures a[i] == Some(s[i].value) {
      assert s[i].month == MonthsOf(facts)[i];
    }
  }

  /** An axis month that is the `k`-th month of the rows reads the `k`-th smoothed value. */
  lemma AlignReadsSmoothed(axis: seq<Month>, facts: seq<Fact>, i: nat, k: nat)
    requires i < |axis| && k < |MonthsOf(facts)| && MonthsOf(facts)[k] == axis[i]
    ensures Align(axis, Smoothed(facts))[i] == Some(WindowMean(MonthTotals(facts, MonthsOf(facts)), k))
  {
    var s := Smoothed(facts);
    assert s[k].month == axis[i];
  }

  /** A month with no filtered row is a gap on the aligned timeline, never a zero. */
  lemma GapExactlyWhereNoRow(axis: seq<Month>, facts: seq<Fact>, i: nat)
    requires i < |axis|
    ensures Align(axis, Smoothed(facts))[i].None? <==> !OccursIn(facts, axis[i])
  {
  }
}
