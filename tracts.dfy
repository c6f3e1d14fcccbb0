/**
 * The census-tract table: total population and the four race and ethnicity
 * counts per tract, `tracts.loc[...]` lookups by GEOID, and the group shares
 * shown in the race bars.
 */
module Tracts {
  import opened Wrappers

  /** The columns `['White','Black','Asian','Hispanic']`, in bar order. */
  datatype Group = White | Black | Asian | Hispanic

  /** One row of the tract table, indexed by GEOID. */
  datatype Tract = Tract(geoid: string, population: nat, white: nat, black: nat, asian: nat, hispanic: nat)

  function Count(t: Tract, g: Group): nat {
    match g
    case White => t.white
    case Black => t.black
    case Asian => t.asian
    case Hispanic => t.hispanic
  }

  /** No group of a tract is larger than its `Total population`. */
  predicate Consistent(t: Tract) {
    forall g: Group :: Count(t, g) <= t.population
  }

  /** The four bar heights of one area, in group order. */
  datatype Fractions = Fractions(white: real, black: real, asian: real, hispanic: real) {
    function Of(g: Group): real {
      match g
      case White => white
      case Black => black
      case Asian => asian
      case Hispanic => hispanic
    }
  }

  /** The all-zero bars shown when nothing is selected. */
  const ZEROS := Fractions(0.0, 0.0, 0.0, 0.0)

  /** `tracts['Total population'].sum()`. */
  function Population(rows: seq<Tract>): (r: nat)
    ensures r == 0 <==> forall i :: 0 <= i < |rows| ==> rows[i].population == 0
  {
    if rows == [] then 0
    else
      assert forall i :: 0 < i < |rows| ==> rows[i] == rows[1..][i - 1];
      rows[0].population + Population(rows[1..])
  }

  /** `tracts[g].sum()`. */
  function GroupTotal(rows: seq<Tract>, g: Group): (r: nat)
    ensures r == 0 <==> forall i :: 0 <= i < |rows| ==> Count(rows[i], g) == 0
  {
    if rows == [] then 0
    else
      assert forall i :: 0 < i < |rows| ==> rows[i] == rows[1..][i - 1];
      Count(rows[0], g) + GroupTotal(rows[1..], g)
  }

  /** The population of two tables put one after the other is the sum of their populations. */
  lemma {:induction false} PopulationAppend(a: seq<Tract>, b: seq<Tract>)
    ensures Population(a + b) == Population(a) + Population(b)
  {
    if a == [] {
      assert a + b == b;
    } else {
      assert (a + b)[1..] == a[1..] + b;
      PopulationAppend(a[1..], b);
    }
  }

  /** A group's sum over two tables put one after the other is the sum of its two sums. */
  lemma {:induction false} GroupTotalAppend(a: seq<Tract>, b: seq<Tract>, g: Group)
    ensures GroupTotal(a + b, g) == GroupTotal(a, g) + GroupTotal(b, g)
  {
    if a == [] {
      assert a + b == b;
    } else {
      assert (a + b)[1..] == a[1..] + b;
      GroupTotalAppend(a[1..], b, g);
    }
  }

  /** One tract sums to its own population and its own group counts. */
  lemma OneTractTotals(t: Tract, g: Group)
    ensures Population([t]) == t.population
    ensures GroupTotal([t], g) == Count(t, g)
  {
    assert [t][1..] == [];
  }

  /**
   * Per-group sums divided by the summed population. pandas yields NaN for
   * every group when the population sums to zero; that is `None` here.
   */
  function Shares(rows: seq<Tract>): (r: Option<Fractions>)
    ensures r.None? <==> Population(rows) == 0
    ensures r.Some? ==> forall g: Group :: r.value.Of(g) == GroupTotal(rows, g) as real / Population(rows) as real
  {
    var p := Population(rows);
    if p == 0 then None
    else
      Some(Fractions(
        GroupTotal(rows, White) as real / p as real,
        GroupTotal(rows, Black) as real / p as real,
        GroupTotal(rows, Asian) as real / p as real,
        GroupTotal(rows, Hispanic) as real / p as real))
  }

  /** A group never outnumbers the population it is part of. */
  lemma {:induction false} GroupTotalBounded(rows: seq<Tract>, g: Group)
    requires forall i :: 0 <= i < |rows| ==> Consistent(rows[i])
    ensures GroupTotal(rows, g) <= Population(rows)
  {
    if rows != [] {
      assert Consistent(rows[0]);
      GroupTotalBounded(rows[1..], g);
    }
  }

  /** Every share is a fraction between 0 and 1. */
  lemma SharesAreFractions(rows: seq<Tract>, g: Group)
    requires forall i :: 0 <= i < |rows| ==> Consistent(rows[i])
    requires Shares(rows).Some?
    ensures 0.0 <= Shares(rows).value.Of(g) <= 1.0
  {
    GroupTotalBounded(rows, g);
    RatioBounded(GroupTotal(rows, g), Population(rows));
  }

  /**
   * For consistent tracts a zero summed population leaves every group sum at
   * zero too, so pandas divides 0 by 0 (NaN) and never a positive count by 0
   * (`inf`): `None` stands for the former only.
   */
  lemma ZeroPopulationIsNaN(rows: seq<Tract>, g: Group)
    requires forall i :: 0 <= i < |rows| ==> Consistent(rows[i])
    requires Population(rows) == 0
    ensures GroupTotal(rows, g) == 0
  {
    GroupTotalBounded(rows, g);
  }

  lemma RatioBounded(a: nat, p: nat)
    requires 0 < p && a <= p
    ensures 0.0 <= a as real / p as real <= 1.0
  {
  }

  /** The GEOID index of the table, in row order. */
  function Geoids(rows: seq<Tract>): (r: seq<string>)
    ensures |r| == |rows|
    ensures forall i :: 0 <= i < |rows| ==> r[i] == rows[i].geoid
  {
    if rows == [] then [] else [rows[0].geoid] + Geoids(rows[1..])
  }

  /** The index is unique: no GEOID labels two rows. */
  predicate UniqueGeoids(rows: seq<Tract>) {
    forall i, j :: 0 <= i < j < |rows| ==> rows[i].geoid != rows[j].geoid
  }

  lemma UniqueTail(rows: seq<Tract>)
    requires rows != [] && UniqueGeoids(rows)
    ensures UniqueGeoids(rows[1..])
    ensures rows[0].geoid !in Geoids(rows[1..])
  {
    forall i, j | 0 <= i < j < |rows[1..]| ensures rows[1..][i].geoid != rows[1..][j].geoid {
      assert rows[1..][i] == rows[i + 1] && rows[1..][j] == rows[j + 1];
    }
    forall j | 0 <= j < |rows[1..]| ensures Geoids(rows[1..])[j] != rows[0].geoid {
      assert rows[1..][j] == rows[j + 1];
    }
  }

  /** The GEOIDs of the table as a set. */
  function GeoidSet(rows: seq<Tract>): (r: set<string>)
    ensures forall x :: x in r <==> x in Geoids(rows)
  {
    if rows == [] then {}
    else
      assert Geoids(rows) == [rows[0].geoid] + Geoids(rows[1..]);
      {rows[0].geoid} + GeoidSet(rows[1..])
  }

  /** `tracts.loc[g]`: the row labelled `g`, or `None` (a `KeyError`). */
  function Find(rows: seq<Tract>, g: string): (r: Option<Tract>)
    ensures r.None? <==> g !in Geoids(rows)
    ensures r.Some? ==> r.value in rows && r.value.geoid == g
  {
    if rows == [] then None
    else if rows[0].geoid == g then Some(rows[0])
    else Find(rows[1..], g)
  }

  /**
   * `tracts.loc[ids]` for a list of GEOIDs: one row per listed GEOID, in list
   * order and repeats included. When the index lacks a listed GEOID the
   * lookup fails with a `KeyError`, carried here as the first such GEOID.
   */
  function Select(rows: seq<Tract>, ids: seq<string>): (r: Result<seq<Tract>, string>)
    ensures r.Ok? <==> forall k :: 0 <= k < |ids| ==> ids[k] in Geoids(rows)
    ensures r.Ok? ==> |r.value| == |ids| && forall k :: 0 <= k < |ids| ==> r.value[k] in rows && r.value[k].geoid == ids[k]
    ensures r.Err? ==> r.error in ids && r.error !in Geoids(rows)
  {
    if ids == [] then Ok([])
    else
      match Find(rows, ids[0])
      case None => Err(ids[0])
      case Some(t) =>
        assert forall k :: 0 < k < |ids| ==> ids[k] == ids[1..][k - 1];
        match Select(rows, ids[1..])
        case Err(missing) =>
          assert missing in ids[1..];
          Err(missing)
        case Ok(more) =>
          assert forall k :: 0 < k < |ids| ==> ([t] + more)[k] == more[k - 1];
          Ok([t] + more)
  }

  /** With a unique index, looking up the GEOIDs of rows `k..` gives back those rows. */
  lemma {:induction false} SelectSuffixIsTable(rows: seq<Tract>, k: nat)
    requires UniqueGeoids(rows)
    requires k <= |rows|
    ensures Select(rows, Geoids(rows[k..])) == Ok(rows[k..])
    decreases |rows| - k
  {
    if k < |rows| {
      var ids := Geoids(rows[k..]);
      FindUnique(rows, k);
      assert ids[0] == rows[k].geoid;
      assert ids[1..] == Geoids(rows[k + 1..]);
      SelectSuffixIsTable(rows, k + 1);
      assert [rows[k]] + rows[k + 1..] == rows[k..];
    }
  }

  /** In a uniquely indexed table, `Find` returns the row whose label it is given. */
  lemma {:induction false} FindUnique(rows: seq<Tract>, k: nat)
    requires UniqueGeoids(rows)
    requires k < |rows|
    ensures Find(rows, rows[k].geoid) == Some(rows[k])
  {
    if k > 0 {
      assert rows[0].geoid != rows[k].geoid;
      UniqueTail(rows);
      FindUnique(rows[1..], k - 1);
    }
  }

  /** Selecting every tract by its own GEOID gives the citywide shares. */
  lemma SelectingEveryTractIsCitywide(rows: seq<Tract>)
    requires UniqueGeoids(rows)
    ensures Select(rows, Geoids(rows)) == Ok(rows)
    ensures Shares(Select(rows, Geoids(rows)).value) == Shares(rows)
  {
    SelectSuffixIsTable(rows, 0);
    assert rows[0..] == rows;
  }

  /** Selecting a single tract shows that tract's own proportions. */
  lemma SingleTractShares(t: Tract)
    requires t.population > 0
    ensures Shares([t]) == Some(Fractions(
      t.white as real / t.population as real, t.black as real / t.population as real,
      t.asian as real / t.population as real, t.hispanic as real / t.population as real))
  {
    assert Population([t]) == t.population;
    assert [t][1..] == [];
    forall g: Group ensures GroupTotal([t], g) == Count(t, g) {
    }
  }

  /** Selecting two tracts shows their summed group counts over their summed population. */
  lemma TwoTractShares(s: Tract, t: Tract, g: Group)
    requires s.population + t.population > 0
    ensures Shares([s, t]).Some?
    ensures Shares([s, t]).value.Of(g) ==
            (Count(s, g) + Count(t, g)) as real / (s.population + t.population) as real
  {
    assert [s, t] == [s] + [t];
    PopulationAppend([s], [t]);
    GroupTotalAppend([s], [t], g);
    OneTractTotals(s, g);
    OneTractTotals(t, g);
  }
}
