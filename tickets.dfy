/**
 * The ticket fact table: one row per (GEOID, issue month, violation type) with
 * the number of tickets, the `.loc` filters the callbacks apply to it and the
 * sums they take over it.
 */
module Tickets {
  import opened Wrappers

  /** A calendar month, numbered year * 12 + (month - 1); January of year 0 is 0. */
  type Month = nat

  /**
   * A point in time: the month it falls in and how long after that month's
   * first instant it lies (in any unit; 0 is the first instant). The fact
   * table labels each row with the first instant of its month.
   */
  datatype Instant = Instant(month: Month, sinceMonthStart: nat)

  function MonthStart(m: Month): Instant {
    Instant(m, 0)
  }

  /** The chronological order on instants: `a <= b`. */
  predicate NotAfter(a: Instant, b: Instant) {
    a.month < b.month || (a.month == b.month && a.sinceMonthStart <= b.sinceMonthStart)
  }

  /** An inclusive timeline range `[start, end]`, as passed to `slice(*selected_dates)`. */
  datatype DateRange = DateRange(start: Instant, end: Instant)

  /**
   * A row labelled with month `m` lies inside the inclusive range: a range
   * starting after a month's first instant leaves that month out, and any
   * instant of the end month keeps it in.
   */
  function Covers(r: DateRange, m: Month): (b: bool)
    ensures b <==> (if r.start.sinceMonthStart == 0 then r.start.month else r.start.month + 1) <= m <= r.end.month
  {
    NotAfter(r.start, MonthStart(m)) && NotAfter(MonthStart(m), r.end)
  }

  /** One row of the fact table: `tickets count` indexed by GEOID, issue month and violation type. */
  datatype Fact = Fact(geoid: string, month: Month, violation: string, count: nat)

  /**
   * What a `.loc[areas, dates, violations]` lookup keeps: `None` stands for the
   * source's `:` (every label of that level).
   */
  datatype Filter = Filter(areas: Option<set<string>>, dates: Option<DateRange>, violations: seq<string>)

  predicate Keeps(flt: Filter, f: Fact) {
    && (flt.areas.None? || f.geoid in flt.areas.value)
    && (flt.dates.None? || Covers(flt.dates.value, f.month))
    && f.violation in flt.violations
  }

  /** The rows of `facts` that the filter keeps, in table order. */
  function Where(facts: seq<Fact>, flt: Filter): (r: seq<Fact>)
    ensures |r| <= |facts|
    ensures forall f :: f in r <==> f in facts && Keeps(flt, f)
    ensures forall f :: multiset(r)[f] == if Keeps(flt, f) then multiset(facts)[f] else 0
  {
    if facts == [] then []
    else
      assert facts == [facts[0]] + facts[1..];
      var rest := Where(facts[1..], flt);
      if Keeps(flt, facts[0]) then [facts[0]] + rest else rest
  }

  /**
   * `tickets.loc[ids, :, violations]`: the rows of the listed GEOIDs (`None`:
   * the source's `:`, every GEOID) and of the listed violation types.
   */
  function SelectionRows(facts: seq<Fact>, ids: Option<seq<string>>, violations: seq<string>): (r: seq<Fact>)
    ensures forall f :: f in r <==> f in facts && (ids.None? || f.geoid in ids.value) && f.violation in violations
    ensures forall f :: multiset(r)[f] ==
              if (ids.None? || f.geoid in ids.value) && f.violation in violations then multiset(facts)[f] else 0
  {
    var areas := if ids.Some? then Some(set g | g in ids.value) else None;
    Where(facts, Filter(areas, None, violations))
  }

  /** A filter that keeps none of the rows (say, one with no GEOID selected) leaves an empty table. */
  lemma {:induction false} WhereKeepsNothing(facts: seq<Fact>, flt: Filter)
    requires forall i :: 0 <= i < |facts| ==> !Keeps(flt, facts[i])
    ensures Where(facts, flt) == []
  {
    if facts != [] {
      assert !Keeps(flt, facts[0]);
      WhereKeepsNothing(facts[1..], flt);
    }
  }

  /** Sum of `count` over the rows of tract `g` (`groupby('GEOID').sum()` at key `g`). */
  function AreaTotal(facts: seq<Fact>, g: string): (r: nat)
    ensures forall i :: 0 <= i < |facts| && facts[i].geoid == g ==> facts[i].count <= r
    ensures r > 0 ==> exists i :: 0 <= i < |facts| && facts[i].geoid == g && facts[i].count > 0
  {
    if facts == [] then 0
    else
      var rest := AreaTotal(facts[1..], g);
      assert forall i :: 0 < i < |facts| ==> facts[i] == facts[1..][i - 1];
      (if facts[0].geoid == g then facts[0].count else 0) + rest
  }

  /** Sum of `count` over the rows whose GEOID is one of `ids`. */
  function AreasTotal(facts: seq<Fact>, ids: set<string>): (r: nat)
    ensures forall i :: 0 <= i < |facts| && facts[i].geoid in ids ==> facts[i].count <= r
    ensures r == 0 <==> forall i :: 0 <= i < |facts| && facts[i].geoid in ids ==> facts[i].count == 0
  {
    if facts == [] then 0
    else
      var rest := AreasTotal(facts[1..], ids);
      assert forall i :: 0 < i < |facts| ==> facts[i] == facts[1..][i - 1];
      (if facts[0].geoid in ids then facts[0].count else 0) + rest
  }

  /** The GEOID sum of two tables put one after the other is the sum of their GEOID sums. */
  lemma {:induction false} AreasTotalAppend(a: seq<Fact>, b: seq<Fact>, ids: set<string>)
    ensures AreasTotal(a + b, ids) == AreasTotal(a, ids) + AreasTotal(b, ids)
  {
    if a == [] {
      assert a + b == b;
    } else {
      assert (a + b)[1..] == a[1..] + b;
      AreasTotalAppend(a[1..], b, ids);
    }
  }

  /** One row adds its count when its GEOID is selected and nothing otherwise. */
  lemma AreasTotalOfRow(f: Fact, ids: set<string>)
    ensures AreasTotal([f], ids) == if f.geoid in ids then f.count else 0
  {
    assert [f][1..] == [];
  }

  /** The sum for one tract over two tables put one after the other. */
  lemma AreaTotalAppend(a: seq<Fact>, b: seq<Fact>, g: string)
    ensures AreaTotal(a + b, g) == AreaTotal(a, g) + AreaTotal(b, g)
  {
    AreaTotalIsSingleton(a + b, g);
    AreaTotalIsSingleton(a, g);
    AreaTotalIsSingleton(b, g);
    AreasTotalAppend(a, b, {g});
  }

  /** One row adds its count to its own tract and nothing to any other. */
  lemma AreaTotalOfRow(f: Fact, g: string)
    ensures AreaTotal([f], g) == if f.geoid == g then f.count else 0
  {
    assert [f][1..] == [];
  }

  /** Sum of `count` over the rows of month `m` (`groupby('Issue Date').sum()` at key `m`). */
  function MonthTotal(facts: seq<Fact>, m: Month): (r: nat)
    ensures forall i :: 0 <= i < |facts| && facts[i].month == m ==> facts[i].count <= r
    ensures r > 0 ==> exists i :: 0 <= i < |facts| && facts[i].month == m && facts[i].count > 0
  {
    if facts == [] then 0
    else
      var rest := MonthTotal(facts[1..], m);
      assert forall i :: 0 < i < |facts| ==> facts[i] == facts[1..][i - 1];
      (if facts[0].month == m then facts[0].count else 0) + rest
  }

  /** The monthly sum of two tables put one after the other is the sum of their monthly sums. */
  lemma {:induction false} MonthTotalAppend(a: seq<Fact>, b: seq<Fact>, m: Month)
    ensures MonthTotal(a + b, m) == MonthTotal(a, m) + MonthTotal(b, m)
  {
    if a == [] {
      assert a + b == b;
    } else {
      assert (a + b)[1..] == a[1..] + b;
      MonthTotalAppend(a[1..], b, m);
    }
  }

  /** One row adds its count to its own month and nothing to any other. */
  lemma MonthTotalOfRow(f: Fact, m: Month)
    ensures MonthTotal([f], m) == if f.month == m then f.count else 0
  {
    assert [f][1..] == [];
  }

  /** The sum of a column of counts. */
  function Sum(xs: seq<nat>): nat {
    if xs == [] then 0 else xs[0] + Sum(xs[1..])
  }

  /** The GEOIDs that occur in the rows. */
  function AreasOf(facts: seq<Fact>): set<string> {
    set f | f in facts :: f.geoid
  }

  /** Splitting the selected GEOIDs into two disjoint parts splits the sum. */
  lemma {:induction false} AreasTotalSplit(facts: seq<Fact>, a: set<string>, b: set<string>)
    requires a !! b
    ensures AreasTotal(facts, a + b) == AreasTotal(facts, a) + AreasTotal(facts, b)
  {
    if facts != [] {
      AreasTotalSplit(facts[1..], a, b);
    }
  }

  lemma AreasTotalOfNone(facts: seq<Fact>)
    ensures AreasTotal(facts, {}) == 0
  {
  }

  /** One tract's total is the total over the one-element GEOID set. */
  lemma {:induction false} AreaTotalIsSingleton(facts: seq<Fact>, g: string)
    ensures AreaTotal(facts, g) == AreasTotal(facts, {g})
  {
    if facts != [] {
      AreaTotalIsSingleton(facts[1..], g);
    }
  }

  /** A tract with no row sums to zero. */
  lemma {:induction false} AreaTotalOfAbsent(facts: seq<Fact>, g: string)
    requires g !in AreasOf(facts)
    ensures AreaTotal(facts, g) == 0
  {
    if facts != [] {
      assert facts[0] in facts;
      assert AreasOf(facts[1..]) <= AreasOf(facts) by {
        forall x | x in AreasOf(facts[1..]) ensures x in AreasOf(facts) {
          var f :| f in facts[1..] && f.geoid == x;
          assert f in facts;
        }
      }
      AreaTotalOfAbsent(facts[1..], g);
    }
  }

  /** `m` is the smallest issue month of the table (`get_level_values('Issue Date').min()`). */
  predicate IsEarliest(facts: seq<Fact>, m: Month) {
    && (exists i :: 0 <= i < |facts| && facts[i].month == m)
    && (forall i :: 0 <= i < |facts| ==> m <= facts[i].month)
  }

  /** `m` is the largest issue month of the table (`get_level_values('Issue Date').max()`). */
  predicate IsLatest(facts: seq<Fact>, m: Month) {
    && (exists i :: 0 <= i < |facts| && facts[i].month == m)
    && (forall i :: 0 <= i < |facts| ==> facts[i].month <= m)
  }

  function EarliestMonth(facts: seq<Fact>): (m: Month)
    requires facts != []
    ensures IsEarliest(facts, m)
  {
    if |facts| == 1 then facts[0].month
    else
      var rest := EarliestMonth(facts[1..]);
      if facts[0].month <= rest then facts[0].month else rest
  }

  function LatestMonth(facts: seq<Fact>): (m: Month)
    requires facts != []
    ensures IsLatest(facts, m)
  {
    if |facts| == 1 then facts[0].month
    else
      var rest := LatestMonth(facts[1..]);
      if rest <= facts[0].month then facts[0].month else rest
  }

  /** A date bound that every row of the table satisfies filters nothing out. */
  lemma {:induction false} CoveringRangeKeepsAll(facts: seq<Fact>, areas: Option<set<string>>, r: DateRange, violations: seq<string>)
    requires forall i :: 0 <= i < |facts| ==> Covers(r, facts[i].month)
    ensures Where(facts, Filter(areas, Some(r), violations)) == Where(facts, Filter(areas, None, violations))
  {
    if facts != [] {
      assert Covers(r, facts[0].month);
      CoveringRangeKeepsAll(facts[1..], areas, r, violations);
    }
  }
}
