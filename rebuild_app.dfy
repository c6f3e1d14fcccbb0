/**
 * The patch-based app (dash-example-app-rebuild.py): aggregates computed
 * once at startup, and the two callbacks that recompute the map, and the
 * race bars and timeline, from the user's inputs. Each `Patch()` is modelled
 * as the plain values it writes.
 */
module RebuildApp {
  import opened Wrappers
  import opened Tickets
  import opened Tracts
  import opened Timeline
  import opened Titles
  import opened Inputs
  import opened MapView

  const INITIAL_VIOLATION_TYPE := "Street cleaning"
  const NO_SELECTION_RACE_BARS_TITLE := "Race and ethnicity citywide (select area on map to compare)"
  const SELECTION_RACE_BARS_TITLE := "Race and ethnicity citywide and selected area"
  const DOUBLE_CLICK_HINT := "Double-click map to remove selection"
  const SELECTED_TIMELINE_TITLE := "Selected area"
  const CITYWIDE_TIMELINE_TITLE := "Total citywide"

  /** `.loc[:, :, INITIAL_VIOLATION_TYPE]`. */
  function InitialFilter(): Filter {
    Filter(None, None, [INITIAL_VIOLATION_TYPE])
  }

  /** The tables and the aggregates computed from them once, when the app starts. */
  datatype Startup = Startup(
    tracts: seq<Tract>,
    tickets: seq<Fact>,
    timeline: seq<Point>,        // total_tickets_by_month; its months are the timeline's x-axis
    tractMap: MapData,           // total_tickets_by_tract
    citywide: Option<Fractions>) // total_race_pct

  /**
   * Builds the startup aggregates. The scalar `.loc` with the initial type
   * raises `KeyError` when no row has that type.
   */
  function Load(tracts: seq<Tract>, tickets: seq<Fact>): (r: Result<Startup, Error>)
    ensures r.Err? <==> forall f :: f in tickets ==> f.violation != INITIAL_VIOLATION_TYPE
    ensures r.Err? ==> r.error == KeyError(INITIAL_VIOLATION_TYPE)
    ensures r.Ok? ==>
              var initial := Where(tickets, InitialFilter());
              && r.value.tracts == tracts && r.value.tickets == tickets
              && MonthsOfSeries(r.value.timeline) == MonthsOf(initial)
              && (forall i :: 0 <= i < |r.value.timeline| ==>
                    r.value.timeline[i].value == WindowMean(MonthTotals(initial, MonthsOf(initial)), i))
              && r.value.tractMap.locations == Geoids(tracts)
              && |r.value.tractMap.z| == |tracts|
              && (forall i :: 0 <= i < |tracts| ==> r.value.tractMap.z[i] == AreaTotal(initial, tracts[i].geoid))
              && r.value.citywide == Shares(tracts)
  {
    var initial := Where(tickets, InitialFilter());
    if initial == [] then
      Err(KeyError(INITIAL_VIOLATION_TYPE))
    else
      assert initial[0] in initial;
      Ok(Startup(tracts, tickets, Smoothed(initial), Reindexed(tracts, initial), Shares(tracts)))
  }

  /** The state the app is in once it has started. */
  predicate Loaded(s: Startup) {
    Load(s.tracts, s.tickets) == Ok(s)
  }

  /**
   * `timeline_fig['data'][0]['x']`: the months of the startup timeline. Once
   * the app has started these are, ascending, exactly the months in which
   * some ticket of the initial type was issued.
   */
  function Axis(s: Startup): (r: seq<Month>)
    ensures Loaded(s) ==> Ascending(r)
    ensures Loaded(s) ==> forall m :: m in r <==> exists f :: f in s.tickets && f.violation == INITIAL_VIOLATION_TYPE && f.month == m
  {
    InitialMonths(s.tickets);
    MonthsOfSeries(s.timeline)
  }

  /** The months of the initial-type rows are the months of the initial-type tickets. */
  lemma InitialMonths(tickets: seq<Fact>)
    ensures forall m :: OccursIn(Where(tickets, InitialFilter()), m) <==>
              exists f :: f in tickets && f.violation == INITIAL_VIOLATION_TYPE && f.month == m
  {
    var initial := Where(tickets, InitialFilter());
    forall m ensures OccursIn(initial, m) <==> exists f :: f in tickets && f.violation == INITIAL_VIOLATION_TYPE && f.month == m {
      if OccursIn(initial, m) {
        var f :| f in initial && f.month == m;
        assert f in tickets && f.violation == INITIAL_VIOLATION_TYPE;
      }
      if exists f :: f in tickets && f.violation == INITIAL_VIOLATION_TYPE && f.month == m {
        var f :| f in tickets && f.violation == INITIAL_VIOLATION_TYPE && f.month == m;
        assert Keeps(InitialFilter(), f);
        assert f in initial;
      }
    }
  }

  /** What `update_map` returns: the title and the map patch. */
  datatype MapUpdate = MapUpdate(title: string, data: MapData)

  /**
   * `update_map`: the map title and, for every tract of the table in table
   * order, the tickets of the selected types issued in the selected range.
   */
  function UpdateMap(s: Startup, relayout: Option<Dict>, violations: seq<string>): (r: Result<MapUpdate, Error>)
    ensures r.Ok? <==> ResolveDates(relayout, s.tickets).Ok?
    ensures r.Err? ==> r.error == ResolveDates(relayout, s.tickets).error
    ensures r.Ok? ==>
              var range := ResolveDates(relayout, s.tickets).value;
              var rows := Where(s.tickets, Filter(None, Some(range), violations));
              && r.value.title == MapTitle(violations, range)
              && r.value.data.locations == Geoids(s.tracts)
              && |r.value.data.z| == |s.tracts|
              && (forall i :: 0 <= i < |s.tracts| ==> r.value.data.z[i] == AreaTotal(rows, s.tracts[i].geoid))
              && (forall i :: 0 <= i < |s.tracts| && s.tracts[i].geoid !in AreasOf(rows) ==> r.value.data.z[i] == 0)
  {
    var range :- ResolveDates(relayout, s.tickets);
    var rows := Where(s.tickets, Filter(None, Some(range), violations));
    Ok(MapUpdate(MapTitle(violations, range), Reindexed(s.tracts, rows)))
  }

  /**
   * The map adds up to every ticket of the selected types and range issued in
   * a tract of the table; rows of GEOIDs the table lacks are left out.
   */
  lemma MapTotalIsMatchingTickets(s: Startup, relayout: Option<Dict>, violations: seq<string>)
    requires UniqueGeoids(s.tracts)
    requires UpdateMap(s, relayout, violations).Ok?
    ensures var range := ResolveDates(relayout, s.tickets).value;
            Sum(UpdateMap(s, relayout, violations).value.data.z) ==
            AreasTotal(Where(s.tickets, Filter(None, Some(range), violations)), GeoidSet(s.tracts))
  {
    var range := ResolveDates(relayout, s.tickets).value;
    CountsAddUp(s.tracts, Where(s.tickets, Filter(None, Some(range), violations)));
  }

  /** The map title reads back as the capitalized names and the two months of the range. */
  lemma MapTitleReadsBack(s: Startup, relayout: Option<Dict>, violations: seq<string>)
    requires UpdateMap(s, relayout, violations).Ok?
    requires var range := ResolveDates(relayout, s.tickets).value;
             1000 <= range.start.month / 12 <= 9999 && 1000 <= range.end.month / 12 <= 9999
    ensures var range := ResolveDates(relayout, s.tickets).value;
            ParseMapTitle(UpdateMap(s, relayout, violations).value.title) ==
            Some((Join(", ", CapitalizeAll(violations)), range.start.month, range.end.month))
  {
    MapTitleRoundTrip(violations, ResolveDates(relayout, s.tickets).value);
  }

  /**
   * While the timeline holds no range (no relayout yet, or one without
   * `'xaxis.range[0]'`, such as an autorange reset), the map for the initial
   * violation type is the startup map.
   */
  lemma InitialMapIsStartupMap(s: Startup, relayout: Option<Dict>)
    requires Loaded(s)
    requires !HasRange(relayout)
    ensures UpdateMap(s, relayout, [INITIAL_VIOLATION_TYPE]).Ok?
    ensures UpdateMap(s, relayout, [INITIAL_VIOLATION_TYPE]).value.data == s.tractMap
  {
    assert s.tickets != [];
    assert ResolveDates(relayout, s.tickets) == ResolveDates(None, s.tickets);
    var range := ResolveDates(relayout, s.tickets).value;
    DefaultRangeCoversTable(relayout, s.tickets);
    CoveringRangeKeepsAll(s.tickets, None, range, [INITIAL_VIOLATION_TYPE]);
    var m := UpdateMap(s, relayout, [INITIAL_VIOLATION_TYPE]).value.data;
    assert m.z == s.tractMap.z;
  }

  /** What the selection callback returns: the two patches and the double-click hint. */
  datatype BarsPatch = BarsPatch(selected: Option<Fractions>, title: string)
  datatype TimelinePatch = TimelinePatch(y: seq<Option<real>>, title: string)
  datatype SelectionUpdate = SelectionUpdate(bars: BarsPatch, timeline: TimelinePatch, doubleClick: string)

  /**
   * `update_race_bars_and_timeline_from_map_selection`. A non-empty GEOID
   * list gives the selection's group shares and its timeline; anything else
   * (`None`, `{}` or an empty point list) gives zero bars and the citywide
   * timeline. The timeline is always read at the startup x-axis.
   */
  function UpdateBarsAndTimeline(s: Startup, selected: Option<Dict>, violations: seq<string>): (r: Result<SelectionUpdate, Error>)
    ensures SelectedGeoids(selected).Err? ==> r == Err(SelectedGeoids(selected).error)
    ensures r.Ok? ==> |r.value.timeline.y| == |Axis(s)|
    ensures r.Ok? ==> r.value.doubleClick == if Truthy(selected) then DOUBLE_CLICK_HINT else ""
  {
    var ids :- SelectedGeoids(selected);
    var hint := if ids.Some? then DOUBLE_CLICK_HINT else "";
    if ids.Some? && ids.value != [] then
      match Select(s.tracts, ids.value)
      case Err(g) => Err(KeyError(g))
      case Ok(rows) =>
        var y := Align(Axis(s), Smoothed(SelectionRows(s.tickets, ids, violations)));
        Ok(SelectionUpdate(BarsPatch(Shares(rows), SELECTION_RACE_BARS_TITLE), TimelinePatch(y, SELECTED_TIMELINE_TITLE), hint))
    else
      var y := Align(Axis(s), Smoothed(SelectionRows(s.tickets, None, violations)));
      Ok(SelectionUpdate(BarsPatch(Some(ZEROS), NO_SELECTION_RACE_BARS_TITLE), TimelinePatch(y, CITYWIDE_TIMELINE_TITLE), hint))
  }

  /** The view shown when nothing is selected. */
  predicate IsCitywide(s: Startup, u: SelectionUpdate, violations: seq<string>) {
    && u.bars == BarsPatch(Some(ZEROS), NO_SELECTION_RACE_BARS_TITLE)
    && u.timeline.title == CITYWIDE_TIMELINE_TITLE
    && u.timeline.y == Align(Axis(s), Smoothed(Where(s.tickets, Filter(None, None, violations))))
  }

  /** `None` and `{}` both take the citywide branch and clear the double-click hint. */
  lemma FalsySelectionIsCitywide(s: Startup, selected: Option<Dict>, violations: seq<string>)
    requires !Truthy(selected)
    ensures UpdateBarsAndTimeline(s, selected, violations).Ok?
    ensures IsCitywide(s, UpdateBarsAndTimeline(s, selected, violations).value, violations)
    ensures UpdateBarsAndTimeline(s, selected, violations).value.doubleClick == ""
  {
  }

  /**
   * A selection whose point list is empty shows the hint but takes the
   * citywide branch: bars and timeline are exactly those of no selection.
   */
  lemma EmptyPointListIsCitywide(s: Startup, selected: Dict, violations: seq<string>)
    requires POINTS_KEY in selected && selected[POINTS_KEY] == Points([])
    ensures UpdateBarsAndTimeline(s, Some(selected), violations).Ok?
    ensures var u := UpdateBarsAndTimeline(s, Some(selected), violations).value;
            && IsCitywide(s, u, violations)
            && u.bars == UpdateBarsAndTimeline(s, None, violations).value.bars
            && u.timeline == UpdateBarsAndTimeline(s, None, violations).value.timeline
            && u.doubleClick == DOUBLE_CLICK_HINT
  {
    assert |selected| > 0 by {
      assert POINTS_KEY in selected.Keys;
    }
    assert SelectedGeoids(Some(selected)) == Ok(Some([]));
  }

  /**
   * A non-empty selection of known tracts: the selected bar of each group is
   * the group's sum over the selected tracts (repeats counted) over their
   * summed population, with NaN (`None`) when that population is zero; and
   * an unknown GEOID raises `KeyError`.
   */
  lemma SelectedBarsAreGroupShares(s: Startup, selected: Dict, violations: seq<string>)
    requires SelectedGeoids(Some(selected)).Ok?
    requires var ids := SelectedGeoids(Some(selected)).value; ids.Some? && ids.value != []
    ensures var ids := SelectedGeoids(Some(selected)).value.value;
            var r := UpdateBarsAndTimeline(s, Some(selected), violations);
            match Select(s.tracts, ids)
            case Err(g) => r == Err(KeyError(g)) && g in ids && g !in Geoids(s.tracts)
            case Ok(rows) =>
              && r.Ok?
              && r.value.bars.title == SELECTION_RACE_BARS_TITLE
              && r.value.timeline.title == SELECTED_TIMELINE_TITLE
              && |rows| == |ids| && (forall k :: 0 <= k < |ids| ==> rows[k].geoid == ids[k])
              && (r.value.bars.selected.None? <==> Population(rows) == 0)
              && (r.value.bars.selected.Some? ==> forall g: Group ::
                    r.value.bars.selected.value.Of(g) == GroupTotal(rows, g) as real / Population(rows) as real)
  {
  }

  /**
   * Row `i` of the timeline: a gap exactly when no kept row has the axis
   * month, else the window mean around that month's row of the monthly sums.
   */
  lemma TimelinePoints(s: Startup, selected: Option<Dict>, violations: seq<string>, i: nat)
    requires UpdateBarsAndTimeline(s, selected, violations).Ok?
    requires i < |Axis(s)|
    ensures var ids := SelectedGeoids(selected).value;
            var keep := if ids.Some? && ids.value != [] then ids else None;
            var rows := SelectionRows(s.tickets, keep, violations);
            var y := UpdateBarsAndTimeline(s, selected, violations).value.timeline.y;
            && (y[i].None? <==> !OccursIn(rows, Axis(s)[i]))
            && (forall k :: 0 <= k < |MonthsOf(rows)| && MonthsOf(rows)[k] == Axis(s)[i] ==>
                  y[i] == Some(WindowMean(MonthTotals(rows, MonthsOf(rows)), k)))
  {
    var ids := SelectedGeoids(selected).value;
    var keep := if ids.Some? && ids.value != [] then ids else None;
    var rows := SelectionRows(s.tickets, keep, violations);
    if ids.Some? && ids.value != [] {
      assert Select(s.tracts, ids.value).Ok?;
    }
    assert UpdateBarsAndTimeline(s, selected, violations).value.timeline.y == Align(Axis(s), Smoothed(rows));
    GapExactlyWhereNoRow(Axis(s), rows, i);
    forall k | 0 <= k < |MonthsOf(rows)| && MonthsOf(rows)[k] == Axis(s)[i]
      ensures Align(Axis(s), Smoothed(rows))[i] == Some(WindowMean(MonthTotals(rows, MonthsOf(rows)), k))
    {
      AlignReadsSmoothed(Axis(s), rows, i, k);
    }
  }

  /**
   * With nothing selected and the initial violation type, the timeline is
   * the startup timeline, with no gap.
   */
  lemma InitialTimelineIsStartupTimeline(s: Startup)
    requires Loaded(s)
    ensures UpdateBarsAndTimeline(s, None, [INITIAL_VIOLATION_TYPE]).Ok?
    ensures UpdateBarsAndTimeline(s, None, [INITIAL_VIOLATION_TYPE]).value.timeline.y ==
            seq(|s.timeline|, i requires 0 <= i < |s.timeline| => Some(s.timeline[i].value))
  {
    var initial := Where(s.tickets, InitialFilter());
    assert s.timeline == Smoothed(initial);
    assert SelectionRows(s.tickets, None, [INITIAL_VIOLATION_TYPE]) == initial;
    AlignOntoOwnMonths(initial);
  }
}
