/**
 * The map's values: per-tract sums of the filtered ticket rows, either
 * re-indexed over the whole tract table with zero fill (`reindex_like`,
 * `fillna(0)`, `astype(int)`) or left as the bare `groupby('GEOID').sum()`.
 */
module MapView {
  import opened Tickets
  import opened Tracts

  /** The map trace's `locations` and `z` arrays. */
  datatype MapData = MapData(locations: seq<string>, z: seq<nat>)

  /** One summed count per tract of the table, in table order. */
  function Counts(tracts: seq<Tract>, rows: seq<Fact>): (r: seq<nat>)
    ensures |r| == |tracts|
    ensures forall i :: 0 <= i < |tracts| ==> r[i] == AreaTotal(rows, tracts[i].geoid)
  {
    if tracts == [] then [] else [AreaTotal(rows, tracts[0].geoid)] + Counts(tracts[1..], rows)
  }

  /**
   * `rows.groupby('GEOID').sum().reindex_like(tracts).fillna(0).astype(int)`:
   * one entry per tract of the table, in its order, zero where the tract has
   * no row; GEOIDs that the table lacks are dropped.
   */
  function Reindexed(tracts: seq<Tract>, rows: seq<Fact>): (r: MapData)
    ensures r.locations == Geoids(tracts)
    ensures |r.z| == |tracts|
    ensures forall i :: 0 <= i < |tracts| ==> r.z[i] == AreaTotal(rows, tracts[i].geoid)
    ensures forall i :: 0 <= i < |tracts| && tracts[i].geoid !in AreasOf(rows) ==> r.z[i] == 0
  {
    forall i | 0 <= i < |tracts| && tracts[i].geoid !in AreasOf(rows) {
      AreaTotalOfAbsent(rows, tracts[i].geoid);
    }
    MapData(Geoids(tracts), Counts(tracts, rows))
  }

  /**
   * `rows.groupby('GEOID').sum()`: an entry for exactly the GEOIDs that have
   * at least one row, each the sum of its rows.
   */
  function Grouped(rows: seq<Fact>): (r: map<string, nat>)
    ensures r.Keys == AreasOf(rows)
    ensures forall g :: g in r ==> r[g] == AreaTotal(rows, g)
  {
    map g | g in AreasOf(rows) :: AreaTotal(rows, g)
  }

  /** Re-indexing is the bare group-by read at each tract, with zero for a tract it lacks. */
  lemma ReindexedIsZeroFilledGrouped(tracts: seq<Tract>, rows: seq<Fact>, i: nat)
    requires i < |tracts|
    ensures var g := tracts[i].geoid;
            Reindexed(tracts, rows).z[i] == if g in Grouped(rows) then Grouped(rows)[g] else 0
  {
  }

  /**
   * With a unique tract index the map's values add up to the count of every
   * row whose GEOID is in the tract table.
   */
  lemma {:induction false} CountsAddUp(tracts: seq<Tract>, rows: seq<Fact>)
    requires UniqueGeoids(tracts)
    ensures Sum(Counts(tracts, rows)) == AreasTotal(rows, GeoidSet(tracts))
  {
    if tracts == [] {
      AreasTotalOfNone(rows);
    } else {
      var g := tracts[0].geoid;
      var c := Counts(tracts, rows);
      assert c[1..] == Counts(tracts[1..], rows);
      UniqueTail(tracts);
      CountsAddUp(tracts[1..], rows);
      AreaTotalIsSingleton(rows, g);
      AreasTotalSplit(rows, {g}, GeoidSet(tracts[1..]));
    }
  }
}
