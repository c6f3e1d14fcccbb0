/**
 * The callback inputs as the browser sends them: a timeline `relayoutData`
 * dictionary and a map `selectedData` dictionary, each possibly `None`, and
 * how both callbacks read them. The date strings of `relayoutData` are taken
 * as already parsed instants.
 */
module Inputs {
  import opened Wrappers
  import opened Tickets

  /** A selected map point; only its `location` (a GEOID) is read. */
  datatype MapPoint = MapPoint(location: string)

  /** A dictionary value: a timestamp, a list of map points, or anything else. */
  datatype Value = Timestamp(at: Instant) | Points(points: seq<MapPoint>) | Other

  /** A Python dictionary with string keys; `bool(d)` is `|d| > 0`. */
  type Dict = map<string, Value>

  /** The exceptions the callbacks raise. */
  datatype Error =
    | KeyError(key: string)        // a missing dictionary key or an unknown GEOID
    | NotATimestamp(key: string)   // `pd.to_datetime` of a value that is no timestamp
    | NotAList(key: string)        // iterating over a value that is no list
    | NoIssueDates                 // `strftime` of the NaT that min()/max() give on an empty table

  const RANGE_START_KEY := "xaxis.range[0]"
  const RANGE_END_KEY := "xaxis.range[1]"
  const POINTS_KEY := "points"

  /** Python truthiness of an optional dictionary: present and non-empty. */
  predicate Truthy(d: Option<Dict>) {
    d.Some? && |d.value| > 0
  }

  /** `None` and `{}` are falsy; a dictionary with any key is truthy. */
  lemma FalsyDictionaries(d: Dict, k: string)
    ensures !Truthy(None) && !Truthy(Some(map[]))
    ensures k in d ==> Truthy(Some(d))
  {
    if k in d {
      assert k in d.Keys;
    }
  }

  /**
   * The timeline has been zoomed or brushed: the dictionary holds
   * `'xaxis.range[0]'`. `None`, read as `dict()`, holds no range, and neither
   * does any other falsy dictionary.
   */
  function HasRange(relayout: Option<Dict>): (b: bool)
    ensures b ==> Truthy(relayout)
  {
    relayout.Some? && RANGE_START_KEY in relayout.value
  }

  /**
   * `selected_dates`: the timeline's range when the relayout dictionary holds
   * one, else the first and last issue month of the whole fact table.
   */
  function ResolveDates(relayout: Option<Dict>, facts: seq<Fact>): (r: Result<DateRange, Error>)
    ensures !HasRange(relayout) ==>
              && (r.Ok? <==> facts != [])
              && (r.Ok? ==> && r.value.start == MonthStart(r.value.start.month) && IsEarliest(facts, r.value.start.month)
                            && r.value.end == MonthStart(r.value.end.month) && IsLatest(facts, r.value.end.month))
              && (r.Err? ==> r.error == NoIssueDates)
    ensures HasRange(relayout) && RANGE_END_KEY !in relayout.value ==> r == Err(KeyError(RANGE_END_KEY))
    ensures HasRange(relayout) && RANGE_END_KEY in relayout.value ==>
              var d := relayout.value;
              if d[RANGE_START_KEY].Timestamp? && d[RANGE_END_KEY].Timestamp?
              then r == Ok(DateRange(d[RANGE_START_KEY].at, d[RANGE_END_KEY].at))
              else r.Err? && r.error.NotATimestamp?
  {
    if HasRange(relayout) then
      var d := relayout.value;
      if RANGE_END_KEY !in d then Err(KeyError(RANGE_END_KEY))
      else if !d[RANGE_START_KEY].Timestamp? then Err(NotATimestamp(RANGE_START_KEY))
      else if !d[RANGE_END_KEY].Timestamp? then Err(NotATimestamp(RANGE_END_KEY))
      else Ok(DateRange(d[RANGE_START_KEY].at, d[RANGE_END_KEY].at))
    else if facts == [] then Err(NoIssueDates)
    else Ok(DateRange(MonthStart(EarliestMonth(facts)), MonthStart(LatestMonth(facts))))
  }

  /** The default range covers every row of the table, so it filters nothing out. */
  lemma DefaultRangeCoversTable(relayout: Option<Dict>, facts: seq<Fact>)
    requires !HasRange(relayout)
    requires ResolveDates(relayout, facts).Ok?
    ensures forall i :: 0 <= i < |facts| ==> Covers(ResolveDates(relayout, facts).value, facts[i].month)
  {
  }

  /** `[i['location'] for i in points]`. */
  function Locations(points: seq<MapPoint>): (r: seq<string>)
    ensures |r| == |points|
    ensures forall i :: 0 <= i < |points| ==> r[i] == points[i].location
  {
    seq(|points|, i requires 0 <= i < |points| => points[i].location)
  }

  /**
   * The GEOID list of a truthy `selectedData`, in point order; `None` when
   * `selectedData` is falsy (`None` or `{}`).
   */
  function SelectedGeoids(selected: Option<Dict>): (r: Result<Option<seq<string>>, Error>)
    ensures !Truthy(selected) ==> r == Ok(None)
    ensures Truthy(selected) && POINTS_KEY !in selected.value ==> r == Err(KeyError(POINTS_KEY))
    ensures Truthy(selected) && POINTS_KEY in selected.value ==>
              match selected.value[POINTS_KEY]
              case Points(ps) => r.Ok? && r.value.Some? && |r.value.value| == |ps| &&
                                 forall i :: 0 <= i < |ps| ==> r.value.value[i] == ps[i].location
              case _ => r == Err(NotAList(POINTS_KEY))
  {
    if !Truthy(selected) then Ok(None)
    else if POINTS_KEY !in selected.value then Err(KeyError(POINTS_KEY))
    else
      match selected.value[POINTS_KEY]
      case Points(ps) => Ok(Some(Locations(ps)))
      case _ => Err(NotAList(POINTS_KEY))
  }
}
