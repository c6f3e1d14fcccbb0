# Parking-ticket dashboard: the data-linking layer

Two versions of a Dash dashboard show New York City parking tickets on three
linked views:

- a choropleth map of census tracts;
- a timeline of monthly ticket counts;
- bars comparing the race and ethnicity of the city with that of the tracts
  selected on the map.

`dash-example-app.py` is the earlier app. It builds every figure afresh. The
map shows only the tracts that have tickets, and the timeline only the months
that have tickets.

`dash-example-app-rebuild.py` is the patch-based rebuild. It computes the
startup aggregates once. Its callbacks then patch new values into fixed
figures:

- the map gets one value per tract of the tract table, zero-filled;
- the timeline gets one value per month of the startup x-axis, with gaps.

This project models, as pure functions over finite tables, what both apps
compute from the user's inputs:

- the timeline's `relayoutData` (a zoomed date range, or none);
- the violation types chosen in the dropdown;
- the map's `selectedData` (a list of selected points, or none).

The model in Dafny terms:

- **Ticket table**: a sequence of `Fact(geoid, month, violation, count)`.
- **Tract table**: a sequence of `Tract(geoid, population, white, black, asian, hispanic)`.
- **Months**: `year * 12 + (month - 1)`.
- **Timeline bounds**: a bound is an `Instant` (a month and an offset into it).
  A fact row is kept by the inclusive range when its month-start timestamp
  lies in it, as with the pandas index slice.
- **Pandas exceptions**: `Result` errors. They are `KeyError` (missing
  dictionary key, unknown GEOID, or no row of the initial type),
  `NotATimestamp`, `NotAList`, and `NoIssueDates` (an empty table has no
  min/max issue date).
- **NaN shares**: a shares value of `None` is the NaN that pandas gives for a
  selection with zero total population. This reading holds for tracts whose
  group counts never exceed their population; see "## Left out".
- **Timeline gaps**: a `None` among the aligned timeline values is a NaN gap.

Modules:

- `Tickets`: the fact table, filtering (`.loc`), and per-tract and per-month sums.
- `Tracts`: the tract table, `tracts.loc[list]`, and the group shares.
- `Timeline`: `groupby('Issue Date')`, `rolling(3, 1, center=True).mean()`,
  and `reindex` onto an axis.
- `Titles`: `str.capitalize`, `', '.join`, `strftime('%b %Y')`, the map title,
  and a parser that reads a title back.
- `Inputs`: the callback dictionaries, the date-range resolution, and the
  GEOID list of a map selection.
- `MapView`: the per-tract map values, zero-filled or grouped.
- `RebuildApp`: the startup aggregates and both callbacks of the rebuild.
- `OriginalApp`: the startup shares and both callbacks of the earlier app.
- `Variants`: both apps on the same inputs.

## Model

| member | source | states |
|---|---|---|
| Tickets.Where | dash-example-app-rebuild.py:316 | a row is kept exactly when it is in the table and its GEOID, month and violation type pass the filter; each kept row occurs as often as in the table and a rejected row not at all; the result is never longer than the table |
| Tickets.Covers | dash-example-app-rebuild.py:316 | a row labelled with a month is inside the inclusive range exactly when the month lies from the start month (the next month when the start is past its month's first instant) up to and including the end month |
| Tickets.SelectionRows | dash-example-app-rebuild.py:388 | exactly the rows of the selected GEOIDs (all of them when there is no list) and of the chosen types, each as often as in the table |
| Tickets.WhereKeepsNothing | dash-example-app.py:288-290 | a filter that rejects every row gives an empty table |
| Tickets.AreaTotal | dash-example-app-rebuild.py:317-318 | no row of the GEOID has more tickets than its sum, and a positive sum has a row of the GEOID with tickets |
| Tickets.AreasTotal | dash-example-app-rebuild.py:316-321 | no row of the GEOIDs has more tickets than the sum, and the sum is zero exactly when every row of the GEOIDs has zero tickets |
| Tickets.AreasTotalSplit | dash-example-app-rebuild.py:317-318 | the ticket sum over two disjoint GEOID sets is the sum of the two sums |
| Tickets.AreasTotalOfNone | dash-example-app-rebuild.py:317-318 | no GEOID gives a total of zero |
| Tickets.AreaTotalIsSingleton | dash-example-app-rebuild.py:317-318 | the sum for one GEOID is the set sum over that GEOID alone |
| Tickets.AreaTotalOfAbsent | dash-example-app-rebuild.py:319-320 | a GEOID with no row sums to zero, which is the value `fillna(0)` writes |
| Tickets.AreasTotalAppend | dash-example-app-rebuild.py:316-318 | the ticket sum over the selected GEOIDs of two tables one after the other is the sum of their two sums |
| Tickets.AreasTotalOfRow | dash-example-app-rebuild.py:316-318 | one row adds its count exactly when its GEOID is selected |
| Tickets.AreaTotalAppend | dash-example-app-rebuild.py:317-318 | one tract's ticket sum over two tables one after the other is the sum of its two sums |
| Tickets.AreaTotalOfRow | dash-example-app-rebuild.py:317-318 | one row adds its count to its own GEOID and nothing to any other |
| Tickets.MonthTotal | dash-example-app-rebuild.py:389-390 | no row of the month has more tickets than its sum, and a positive sum has a row of the month with tickets |
| Tickets.MonthTotalAppend | dash-example-app-rebuild.py:389-390 | the monthly sum of two tables one after the other is the sum of their monthly sums |
| Tickets.MonthTotalOfRow | dash-example-app-rebuild.py:389-390 | one row adds its count to its own month and nothing to any other |
| Tickets.EarliestMonth | dash-example-app-rebuild.py:300 | the result is the month of some row and no row has an earlier month |
| Tickets.LatestMonth | dash-example-app-rebuild.py:301 | the result is the month of some row and no row has a later month |
| Tickets.CoveringRangeKeepsAll | dash-example-app-rebuild.py:299-302 | a range covering every row filters nothing out for any type list |
| Tracts.Shares | dash-example-app-rebuild.py:81-89 | each group's share is the group's sum over the rows divided by their total population; none exactly when that population is zero (NaN) |
| Tracts.Population | dash-example-app-rebuild.py:367-371 | the summed population is zero exactly when every row has zero population |
| Tracts.GroupTotal | dash-example-app-rebuild.py:367-371 | a group sum is zero exactly when every row has zero of that group |
| Tracts.PopulationAppend | dash-example-app-rebuild.py:367-371 | the summed population of two tables one after the other is the sum of their two populations |
| Tracts.GroupTotalAppend | dash-example-app-rebuild.py:367-371 | a group's sum over two tables one after the other is the sum of its two sums |
| Tracts.OneTractTotals | dash-example-app-rebuild.py:367-371 | one tract sums to its own population and its own count of each group |
| Tracts.TwoTractShares | dash-example-app-rebuild.py:365-371 | two selected tracts show each group's two counts added up over their two populations added up |
| Tracts.GroupTotalBounded | dash-example-app-rebuild.py:369-371 | when each tract's group counts are within its population, so is every group's sum |
| Tracts.SharesAreFractions | dash-example-app-rebuild.py:367-372 | for such tracts every share lies between 0 and 1 |
| Tracts.ZeroPopulationIsNaN | dash-example-app-rebuild.py:367-372 | for consistent tracts a zero population leaves every group sum zero, so the share is 0/0 (NaN), never a positive count over zero |
| Tracts.Geoids | dash-example-app-rebuild.py:34 | the GEOID index of the tract table, row by row |
| Tracts.UniqueTail | dash-example-app-rebuild.py:34 | removing the first row of a table with a unique index keeps the index unique, and the first GEOID does not occur later |
| Tracts.GeoidSet | dash-example-app-rebuild.py:319 | the index labels, as a set: exactly the GEOIDs of the table |
| Tracts.Find | dash-example-app-rebuild.py:364 | the row with the label, none exactly when the label is unknown |
| Tracts.Select | dash-example-app-rebuild.py:364 | succeeds exactly when every requested GEOID is known, giving one row per request in request order; otherwise fails with a requested GEOID that is unknown |
| Tracts.SelectSuffixIsTable | dash-example-app-rebuild.py:364 | selecting the GEOIDs of a suffix of a uniquely indexed table gives that suffix |
| Tracts.FindUnique | dash-example-app-rebuild.py:364 | with a unique index, looking up row k's GEOID gives row k |
| Tracts.SelectingEveryTractIsCitywide | dash-example-app-rebuild.py:81-89 | selecting every tract gives the table itself and so the citywide shares |
| Tracts.SingleTractShares | dash-example-app-rebuild.py:367-372 | a single populated tract's shares are its own counts over its population |
| Timeline.Insert | dash-example-app-rebuild.py:389 | inserting keeps the months strictly ascending, adds the month and loses none |
| Timeline.PrependAscending | dash-example-app-rebuild.py:389 | a month below every month of an ascending sequence keeps it ascending when put in front |
| Timeline.MonthsOf | dash-example-app-rebuild.py:389-390 | the group index: strictly ascending, and a month is in it exactly when some row has that month |
| Timeline.MonthTotals | dash-example-app-rebuild.py:389-390 | one sum per index month, each the tickets of that month |
| Timeline.WindowSum | dash-example-app-rebuild.py:391 | the sum of rows i-1, i and i+1 for an inner row, of the two rows at an end, and the row itself in a one-row series |
| Timeline.WindowMean | dash-example-app-rebuild.py:391 | an inner row is the mean of three rows, an end row the mean of two, and a single row keeps its value |
| Timeline.Rolling | dash-example-app-rebuild.py:391 | one value per row, each the mean of the existing rows i-1, i and i+1 |
| Timeline.RollingWithinWindow | dash-example-app-rebuild.py:391 | a smoothed value lies between any lower and upper bound of the rows of its window |
| Timeline.RollingKeepsConstant | dash-example-app-rebuild.py:391 | smoothing a constant series changes nothing |
| Timeline.MonthsOfSeries | dash-example-app-rebuild.py:393 | the x values of a series, point by point |
| Timeline.Smoothed | dash-example-app-rebuild.py:386-391 | one point per month present in the rows, ascending, each the window mean of the monthly sums |
| Timeline.ValueAt | dash-example-app-rebuild.py:392-394 | the value of an axis month in an ascending series; none exactly when the series lacks the month |
| Timeline.Align | dash-example-app-rebuild.py:392-395 | one value per axis month; a gap exactly where the series has no point for the month, elsewhere that point's value |
| Timeline.AlignOntoOwnMonths | dash-example-app-rebuild.py:59-66 | aligning a smoothed series onto its own months keeps every value and leaves no gap |
| Timeline.GapExactlyWhereNoRow | dash-example-app-rebuild.py:392-395 | an aligned value is a gap exactly when no kept row has that month; gaps are never zeros |
| Timeline.AlignReadsSmoothed | dash-example-app-rebuild.py:392-395 | the aligned value at the axis position of the k-th index month is the k-th window mean |
| Titles.Upper | dash-example-app-rebuild.py:309 | a lower-case letter becomes the upper-case letter whose lower case it is; every other character is unchanged; the result is never lower-case |
| Titles.Lower | dash-example-app-rebuild.py:309 | an upper-case letter becomes the lower-case letter 32 code points above it; every other character is unchanged; the result is never upper-case |
| Titles.Capitalize | dash-example-app-rebuild.py:309 | same length; first character upper-cased, every other lower-cased |
| Titles.CapitalizedShape | dash-example-app-rebuild.py:309 | a capitalized name starts with no lower-case letter and has no upper-case letter after the first |
| Titles.CapitalizeIdempotent | dash-example-app-rebuild.py:309 | capitalizing twice is capitalizing once |
| Titles.CapitalizeAll | dash-example-app-rebuild.py:309 | every name capitalized, in order |
| Titles.Join | dash-example-app-rebuild.py:307-309 | a non-empty list of parts gives a text that starts with the first part and ends with the last |
| Titles.JoinLength | dash-example-app-rebuild.py:307-309 | the joined text is as long as all parts plus one separator between each two |
| Titles.JoinPlacesPart | dash-example-app-rebuild.py:307-309 | part k of the list occurs in the joined text at the offset of the k parts and k separators before it |
| Titles.JoinPlacesSeparator | dash-example-app-rebuild.py:307-309 | between part k and part k + 1 the joined text holds exactly one separator |
| Titles.JoinOffsetIsPrefixLength | dash-example-app-rebuild.py:307-309 | the offset of part k is the total length of the parts before it plus k separators |
| Titles.Digit | dash-example-app-rebuild.py:307 | the digit character written for the value, `'0'` to `'9'` in order |
| Titles.DigitValue | dash-example-app-rebuild.py:307 | a digit character reads as the value below 10 whose digit it is |
| Titles.Decimal | dash-example-app-rebuild.py:307 | a non-empty text of digits |
| Titles.DecimalRoundTrip | dash-example-app-rebuild.py:307 | reading a formatted year back gives the year |
| Titles.FourDigitYear | dash-example-app-rebuild.py:307 | years 1000 to 9999 print with four digits |
| Titles.AbbreviationIndex | dash-example-app-rebuild.py:307 | a recognised abbreviation is the `%b` name of its month index |
| Titles.AbbreviationRoundTrip | dash-example-app-rebuild.py:307 | each `%b` name reads back as its month index |
| Titles.FormatMonth | dash-example-app-rebuild.py:307 | a three-letter `%b` abbreviation, a space, and then only digits |
| Titles.FormatMonthRoundTrip | dash-example-app-rebuild.py:307 | `'%b %Y'` of a month reads back as that month |
| Titles.FourDigitMonth | dash-example-app-rebuild.py:307 | a month of a four-digit year prints as eight characters that read back as that month |
| Titles.MapTitle | dash-example-app-rebuild.py:311 | the title starts with 'Ticket type: ' and ends with the end month of the range |
| Titles.DatesText | dash-example-app-rebuild.py:307 | the date text ends with the end month of the range |
| Titles.ParseLaidOutTitle | dash-example-app-rebuild.py:311 | a title whose two eight-character dates parse reads back as its names and the two months |
| Titles.TitleLayout | dash-example-app-rebuild.py:311 | in a title with two eight-character dates, the prefix, names, label, dates and separator occupy fixed places |
| Titles.MapTitleRoundTrip | dash-example-app-rebuild.py:307-311 | the title reads back as the capitalized names joined with ', ' and the two months of the range |
| Inputs.ResolveDates | dash-example-app-rebuild.py:290-302 | without `'xaxis.range[0]'` (or with no dictionary) the range runs from the first to the last issue month, and fails on an empty table; otherwise it is exactly the two timestamps, `KeyError` when `'xaxis.range[1]'` is missing |
| Inputs.DefaultRangeCoversTable | dash-example-app-rebuild.py:298-302 | the default range covers every row of the table |
| Inputs.HasRange | dash-example-app-rebuild.py:290-293 | the `'xaxis.range[0]' in ...` test; a dictionary that passes it is non-empty, so `None` (read as `dict()`) and `{}` never do |
| Inputs.FalsyDictionaries | dash-example-app-rebuild.py:354 | `None` and `{}` are falsy and a dictionary with a key is truthy, as `if selectedData:` tests them |
| Inputs.Locations | dash-example-app-rebuild.py:355 | the `location` of each point, in order |
| Inputs.SelectedGeoids | dash-example-app-rebuild.py:350-356 | `None` or `{}` gives no list; otherwise the locations of the points in order, `KeyError` without a `'points'` key |
| MapView.Counts | dash-example-app-rebuild.py:317-321 | one count per tract in table order, each that tract's ticket sum |
| MapView.Reindexed | dash-example-app-rebuild.py:314-331 | locations are the tract GEOIDs in table order with one count each; a tract without tickets gets 0 |
| MapView.Grouped | dash-example-app.py:178-184 | a value exactly for the GEOIDs that have rows, each that GEOID's ticket sum |
| MapView.ReindexedIsZeroFilledGrouped | dash-example-app-rebuild.py:317-320 | each reindexed count is the grouped value of its GEOID, or 0 when the GEOID has no group |
| MapView.CountsAddUp | dash-example-app-rebuild.py:316-321 | with a unique index, the counts add up to the tickets whose GEOID is in the tract table |
| RebuildApp.Load | dash-example-app-rebuild.py:59-97 | fails with `KeyError` exactly when no row has the initial type; otherwise it holds the smoothed initial-type timeline, the zero-filled initial-type map over every tract, and the citywide shares |
| RebuildApp.Axis | dash-example-app-rebuild.py:393 | once started, the timeline x-axis is ascending and holds exactly the months in which some ticket of the initial type was issued |
| RebuildApp.InitialMonths | dash-example-app-rebuild.py:59-63 | the months of the initial-type rows are exactly the months of the initial-type tickets |
| RebuildApp.UpdateMap | dash-example-app-rebuild.py:280-333 | fails exactly as the date resolution does; otherwise the title of the types and range, and for every tract, in table order, its tickets of those types in that range |
| RebuildApp.MapTotalIsMatchingTickets | dash-example-app-rebuild.py:314-324 | the map's counts add up to the matching tickets of tracts in the table |
| RebuildApp.MapTitleReadsBack | dash-example-app-rebuild.py:307-311 | the map title reads back as the capitalized types and the two months of the range |
| RebuildApp.InitialMapIsStartupMap | dash-example-app-rebuild.py:69-78 | with any `relayoutData` that carries no range (none, or e.g. an autorange reset) and the initial type, the map values equal the startup map |
| RebuildApp.UpdateBarsAndTimeline | dash-example-app-rebuild.py:344-436 | a selection error is passed on; the timeline always has one value per startup axis month; the double-click hint is shown exactly for a truthy selection |
| RebuildApp.FalsySelectionIsCitywide | dash-example-app-rebuild.py:350-361 | `None` and `{}` give zero bars, the no-selection title, the citywide timeline titled 'Total citywide' and no hint |
| RebuildApp.EmptyPointListIsCitywide | dash-example-app-rebuild.py:354-361 | an empty point list shows the hint but gives exactly the bars and timeline of no selection |
| RebuildApp.SelectedBarsAreGroupShares | dash-example-app-rebuild.py:361-383 | a non-empty selection of known tracts gives each group's sum over them divided by their population (NaN at zero) and the selection titles; an unknown GEOID raises `KeyError` |
| RebuildApp.TimelinePoints | dash-example-app-rebuild.py:386-396 | an axis value is a gap exactly when no kept row has that month, else the window mean of the monthly sums around that month's row |
| RebuildApp.InitialTimelineIsStartupTimeline | dash-example-app-rebuild.py:415-425 | with no selection and the initial type, the timeline equals the startup timeline with no gap |
| OriginalApp.Load | dash-example-app.py:53-61 | the citywide shares are those of every tract |
| OriginalApp.UpdateMap | dash-example-app.py:150-184 | fails exactly as the date resolution does; otherwise the title, a value exactly for the GEOIDs with a matching row (no zero fill), and a cleared map selection |
| OriginalApp.UpdateBarsAndTimeline | dash-example-app.py:262-318 | a bad selection dictionary fails with its error; a truthy selection fails with `KeyError` naming an unknown GEOID and otherwise shows the shares of the selected tracts; the citywide bars are the startup ones in both branches; titles follow truthiness; the no-selection bars are zeros and that branch never fails |
| OriginalApp.CitywideBarsNeverChange | dash-example-app.py:53-61 | the citywide bars after any selection are the shares of every tract |
| OriginalApp.EmptyPointListTakesSelectionBranch | dash-example-app.py:266-295 | an empty point list takes the selection branch: NaN selected bars, the selection titles and an empty timeline |
| OriginalApp.TimelineFollowsFilteredMonths | dash-example-app.py:288-316 | the timeline has exactly the months of the kept rows, each the window mean of the monthly sums |
| Variants.MapsAgree | dash-example-app-rebuild.py:314-324 | both apps fail alike and give the same title; the rebuild's count for a tract is the earlier map's value for its GEOID, or 0 where it has none |
| Variants.SelectionsAgree | dash-example-app-rebuild.py:361-396 | for a non-empty selection of known tracts both apps give the same selected bars and title, and the rebuild's timeline is the earlier timeline read at the startup axis |
| Variants.EmptyPointListDiffers | dash-example-app-rebuild.py:354-361 | on an empty point list the earlier app shows NaN bars under the selection title, the rebuild zero bars under another title |

## Left out

- Dash layout, callback registration, the server, the profiler middleware and `print` logging are web plumbing; they are not modelled.
- Plotly figure construction and styling and the `Patch()` writes are not modelled. A patch is modelled as the plain values it writes.
- CSV and GeoJSON loading and tract geometry are file I/O and rendering. The tables are taken as parameters.
- Parsing of the date strings in `relayoutData` (`pd.to_datetime`) is not modelled. Bounds are already-parsed instants; a value of another kind is `NotATimestamp`.
- Floating point: shares and smoothed values are exact reals, not IEEE doubles.
- Tickets.Where: a list of labels in a `.loc` on the ticket index acts as a membership filter and never fails. Whether pandas raises `KeyError` for listed labels missing from a level of the ticket index depends on its version (recent versions raise when any listed label is missing, which covers selecting a tract with no ticket rows); no version is assumed, and that error is not modelled.
- Titles.Capitalize: only ASCII letters are case-mapped; the Unicode case tables of `str.capitalize` are not modelled.
- Titles.MapTitleRoundTrip: holds only for four-digit years (the whole of pandas' timestamp range). The fixed-offset parser reads no other years.
- The earlier app's `total_tickets_by_month` (dash-example-app.py:43-49) is computed at startup but never used by a callback, so it is not modelled.
- OriginalApp.UpdateMap: the map values are a GEOID-keyed map, so the row order of the `groupby` result is not modelled.
- Tracts.Select: `tracts.loc[list]` on a duplicated GEOID label returns every row with that label; the model returns the first. The tract table is taken to have a unique index (`UniqueGeoids`), which the lemmas that need it require. For a list with several unknown GEOIDs, pandas' `KeyError` names all of them; the model carries only the first.
- Tracts.Shares: for a selection whose population sums to zero but a group does not, pandas gives `inf` for that group; the model gives `None`. The two agree for consistent tracts (`Tracts.ZeroPopulationIsNaN`).
- Inputs.SelectedGeoids: a selected point without a `'location'` key raises `KeyError` in both apps; a `MapPoint` always has a location, so that case is not represented.
- RebuildApp.UpdateBarsAndTimeline: its own ensures covers errors, length and hint only. The bars and the timeline values are stated by the lemmas beside it.
