/**
 * The earlier app (dash-example-app.py): both callbacks build their figures
 * afresh. The map holds only the GEOIDs that have matching rows, the
 * timeline only the months that do, and a `selectedData` dictionary with an
 * empty point list still counts as a selection.
 */
module OriginalApp {
  import opened Wrappers
  import opened Tickets
  import opened Tracts
  import opened Timeline
  import opened Titles
  import opened Inputs
  import opened MapView

  const SELECTION_RACE_BARS_TITLE := "Race and ethnicity citywide and selected area"
  const CITYWIDE_RACE_BARS_TITLE := "Race and ethnicity citywide"
  const SELECTED_TIMELINE_TITLE := "Selected area"

  /** The two tables and `total_race_pct`, computed once when the app starts. */
  datatype Context = Context(tracts: seq<Tract>, tickets: seq<Fact>, citywide: Option<Fractions>)

  function Load(tracts: seq<Tract>, tickets: seq<Fact>): (r: Context)
    ensures r.tracts == tracts && r.tickets == tickets
    ensures r.citywide == Shares(tracts)
  {
    Context(tracts, tickets, Shares(tracts))
  }

  /** What `update_map` returns: the title, the map values and the map's new `selectedData`. */
  datatype MapUpdate = MapUpdate(title: string, values: map<string, nat>, selectedData: Option<Dict>)

  /**
   * `update_map`: the title, and a value for exactly those GEOIDs that have
   * a row of the selected types in the selected range; the map selection is
   * always cleared.
   */
  function UpdateMap(c: Context, relayout: Option<Dict>, violations: seq<string>): (r: Result<MapUpdate, Error>)
    ensures r.Ok? <==> ResolveDates(relayout, c.tickets).Ok?
    ensures r.Err? ==> r.error == ResolveDates(relayout, c.tickets).error
    ensures r.Ok? ==>
              var range := ResolveDates(relayout, c.tickets).value;
              var rows := Where(c.tickets, Filter(None, Some(range), violations));
              && r.value.title == MapTitle(violations, range)
              && r.value.selectedData == None
              && (forall g :: g in r.value.values <==> exists f :: f in c.tickets && f.geoid == g && Keeps(Filter(None, Some(range), violations), f))
              && (forall g :: g in r.value.values ==> r.value.values[g] == AreaTotal(rows, g))
  {
    var range :- ResolveDates(relayout, c.tickets);
    var rows := Where(c.tickets, Filter(None, Some(range), violations));
    Ok(MapUpdate(MapTitle(violations, range), Grouped(rows), None))
  }

  /** What the selection callback returns: the bar figure's data and title, and the timeline's. */
  datatype BarsFigure = BarsFigure(citywide: Option<Fractions>, selected: Option<Fractions>, title: string)
  datatype TimelineFigure = TimelineFigure(series: seq<Point>, title: Option<string>)
  datatype SelectionUpdate = SelectionUpdate(bars: BarsFigure, timeline: TimelineFigure)

  /**
   * `update_race_bars_and_timeline_from_map_selection`: a truthy
   * `selectedData` (even one whose point list is empty) gives the selection's
   * shares and timeline; otherwise zero bars and the citywide timeline with
   * no title. The citywide bars are the startup ones in both branches.
   */
  function UpdateBarsAndTimeline(c: Context, selected: Option<Dict>, violations: seq<string>): (r: Result<SelectionUpdate, Error>)
    ensures !Truthy(selected) ==> r.Ok?
    ensures SelectedGeoids(selected).Err? ==> r == Err(SelectedGeoids(selected).error)
    ensures Truthy(selected) && SelectedGeoids(selected).Ok? ==>
              var ids := SelectedGeoids(selected).value.value;
              match Select(c.tracts, ids)
              case Err(g) => r == Err(KeyError(g))
              case Ok(rows) => r.Ok? && r.value.bars.selected == Shares(rows)
    ensures r.Ok? ==> r.value.bars.citywide == c.citywide
    ensures r.Ok? ==> r.value.timeline.title == if Truthy(selected) then Some(SELECTED_TIMELINE_TITLE) else None
    ensures r.Ok? ==> r.value.bars.title == if Truthy(selected) then SELECTION_RACE_BARS_TITLE else CITYWIDE_RACE_BARS_TITLE
    ensures r.Ok? && !Truthy(selected) ==> r.value.bars.selected == Some(ZEROS)
  {
    if Truthy(selected) then
      var ids :- SelectedGeoids(selected);
      var geoids := if ids.Some? then ids.value else [];
      match Select(c.tracts, geoids)
      case Err(g) => Err(KeyError(g))
      case Ok(rows) =>
        var series := Smoothed(SelectionRows(c.tickets, Some(geoids), violations));
        Ok(SelectionUpdate(BarsFigure(c.citywide, Shares(rows), SELECTION_RACE_BARS_TITLE), TimelineFigure(series, Some(SELECTED_TIMELINE_TITLE))))
    else
      var series := Smoothed(SelectionRows(c.tickets, None, violations));
      Ok(SelectionUpdate(BarsFigure(c.citywide, Some(ZEROS), CITYWIDE_RACE_BARS_TITLE), TimelineFigure(series, None)))
  }

  /** The citywide bars are computed once from every tract and never changed by a selection. */
  lemma CitywideBarsNeverChange(tracts: seq<Tract>, tickets: seq<Fact>, selected: Option<Dict>, violations: seq<string>)
    requires UpdateBarsAndTimeline(Load(tracts, tickets), selected, violations).Ok?
    ensures UpdateBarsAndTimeline(Load(tracts, tickets), selected, violations).value.bars.citywide == Shares(tracts)
  {
  }

  /**
   * A selection dictionary whose point list is empty takes the selection
   * branch: the selected bars are NaN (zero population over no tract) and
   * the timeline is empty.
   */
  lemma EmptyPointListTakesSelectionBranch(c: Context, selected: Dict, violations: seq<string>)
    requires POINTS_KEY in selected && selected[POINTS_KEY] == Points([])
    ensures UpdateBarsAndTimeline(c, Some(selected), violations) ==
            Ok(SelectionUpdate(BarsFigure(c.citywide, None, SELECTION_RACE_BARS_TITLE), TimelineFigure([], Some(SELECTED_TIMELINE_TITLE))))
  {
    assert |selected| > 0 by {
      assert POINTS_KEY in selected.Keys;
    }
    assert SelectedGeoids(Some(selected)) == Ok(Some([]));
    assert Select(c.tracts, []) == Ok([]);
    var none: seq<string> := [];
    var rows := SelectionRows(c.tickets, Some(none), violations);
    WhereKeepsNothing(c.tickets, Filter(Some(set g | g in none), None, violations));
    assert MonthsOf(rows) == [];
  }

  /**
   * The timeline has one point per month that occurs in the kept rows, in
   * order, each the window mean of the monthly sums: its length follows the
   * filter.
   */
  lemma TimelineFollowsFilteredMonths(c: Context, selected: Option<Dict>, violations: seq<string>)
    requires UpdateBarsAndTimeline(c, selected, violations).Ok?
    ensures var ids := if Truthy(selected) then Some(SelectedGeoids(selected).value.value) else None;
            var rows := SelectionRows(c.tickets, ids, violations);
            var series := UpdateBarsAndTimeline(c, selected, violations).value.timeline.series;
            && MonthsOfSeries(series) == MonthsOf(rows)
            && (forall i :: 0 <= i < |series| ==> series[i].value == WindowMean(MonthTotals(rows, MonthsOf(rows)), i))
  {
    if Truthy(selected) {
      assert SelectedGeoids(selected).Ok?;
      assert SelectedGeoids(selected).value.Some?;
    }
  }
}
