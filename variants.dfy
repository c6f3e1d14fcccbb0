/**
 * The two apps side by side, on the same tables and inputs: where the
 * patch-based rebuild shows the same numbers as the earlier app, and the one
 * input on which they part ways.
 */
module Variants {
  import opened Wrappers
  import opened Tickets
  import opened Tracts
  import opened Timeline
  import opened Inputs
  import RebuildApp
  import OriginalApp

  /** The earlier app's context on the tables the rebuild started from. */
  function Earlier(s: RebuildApp.Startup): (c: OriginalApp.Context)
    ensures c.tracts == s.tracts && c.tickets == s.tickets
  {
    OriginalApp.Load(s.tracts, s.tickets)
  }

  /**
   * Both maps have the same title and fail alike; the rebuild's count of
   * tract `i` is the earlier app's value for that GEOID, or 0 where the
   * earlier map has no value for it.
   */
  lemma MapsAgree(s: RebuildApp.Startup, relayout: Option<Dict>, violations: seq<string>, i: nat)
    requires i < |s.tracts|
    ensures var r := RebuildApp.UpdateMap(s, relayout, violations);
            var o := OriginalApp.UpdateMap(Earlier(s), relayout, violations);
            && (r.Ok? <==> o.Ok?)
            && (r.Err? ==> r.error == o.error)
            && (r.Ok? ==>
                  var g := s.tracts[i].geoid;
                  && r.value.title == o.value.title
                  && r.value.data.z[i] == if g in o.value.values then o.value.values[g] else 0)
  {
    var r := RebuildApp.UpdateMap(s, relayout, violations);
    if r.Ok? {
      var range := ResolveDates(relayout, s.tickets).value;
      var rows := Where(s.tickets, Filter(None, Some(range), violations));
      var g := s.tracts[i].geoid;
      if g !in AreasOf(rows) {
        AreaTotalOfAbsent(rows, g);
      }
    }
  }

  /**
   * For a non-empty selection of known GEOIDs both apps show the same
   * selected shares, and the rebuild's timeline is the earlier app's
   * timeline read at the startup x-axis.
   */
  lemma SelectionsAgree(s: RebuildApp.Startup, selected: Dict, violations: seq<string>)
    requires POINTS_KEY in selected && selected[POINTS_KEY].Points? && selected[POINTS_KEY].points != []
    requires Select(s.tracts, Locations(selected[POINTS_KEY].points)).Ok?
    ensures var r := RebuildApp.UpdateBarsAndTimeline(s, Some(selected), violations);
            var o := OriginalApp.UpdateBarsAndTimeline(Earlier(s), Some(selected), violations);
            && r.Ok? && o.Ok?
            && r.value.bars.selected == o.value.bars.selected
            && r.value.bars.title == o.value.bars.title
            && r.value.timeline.y == Align(RebuildApp.Axis(s), o.value.timeline.series)
  {
    assert |selected| > 0 by {
      assert POINTS_KEY in selected.Keys;
    }
    assert SelectedGeoids(Some(selected)) == Ok(Some(Locations(selected[POINTS_KEY].points)));
  }

  /**
   * A selection dictionary with an empty point list: the earlier app shows
   * NaN selected bars under the selection title, the rebuild zero bars
   * under the no-selection title.
   */
  lemma EmptyPointListDiffers(s: RebuildApp.Startup, selected: Dict, violations: seq<string>)
    requires POINTS_KEY in selected && selected[POINTS_KEY] == Points([])
    ensures var r := RebuildApp.UpdateBarsAndTimeline(s, Some(selected), violations);
            var o := OriginalApp.UpdateBarsAndTimeline(Earlier(s), Some(selected), violations);
            && r.Ok? && o.Ok?
            && o.value.bars.selected == None && r.value.bars.selected == Some(ZEROS)
            && o.value.bars.title != r.value.bars.title
  {
    RebuildApp.EmptyPointListIsCitywide(s, selected, violations);
    OriginalApp.EmptyPointListTakesSelectionBranch(Earlier(s), selected, violations);
  }
}
