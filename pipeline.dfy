/** The script's top-level run: fetch the catalog, select the indicator,
    validate the date range, fetch and normalise the three series, join the
    indicator with the official rate, and stop on the errors the script stops on. */
module Pipeline {
  import opened Records
  import opened Catalog
  import opened OfficialRate
  import opened BlueRate
  import opened SeriesJoin

  /** The replies the four endpoints give to this run. */
  datatype Upstream = Upstream(
    catalog: Response<seq<CatalogEntry>>,
    indicator: Response<seq<Obs>>,
    official: Response<seq<OfficialDay>>,
    blue: Response<seq<BlueEntry>>)

  /** The `limit` query parameter of the indicator and official-rate requests. */
  const IndicatorLimit: nat := 3000
  const OfficialLimit: nat := 1000

  /** A request the run issues, in the order it issues them. */
  datatype Request =
    | CatalogRequest
    | IndicatorRequest(id: int, from: Date, to: Date, limit: nat)
    | OfficialRequest(from: Date, to: Date, limit: nat)
    | BlueRequest

  /** The step at which a run stops. */
  datatype Step = CatalogStep | SelectionStep | IndicatorStep | OfficialStep

  datatype Outcome =
    | Joined(table: seq<Row>, blue: Option<seq<Obs>>)  // the table handed to the chart
    | InvalidRange                                      // start date after end date
    | UpstreamError(step: Step)                         // a required endpoint answered with a status other than 200
    | Raised(step: Step)                                // an exception escaped the script at that step
    | NoData                                            // the inner join is empty

  /** The catalog stage's result: the selected indicator id, or the outcome the
      run stops with before the date range is even looked at. */
  datatype Selection = Selected(id: int) | StoppedAt(outcome: Outcome)

  /** Lines 29-43: fetch the catalog, stop on a failed request, then filter, sort
      and look up the chosen description. */
  function SelectIndicator(catalog: Response<seq<CatalogEntry>>, chosen: string): (sel: Selection)
    ensures sel.Selected? <==>
            Succeeded(catalog) && exists e :: e in catalog.body && e.id in AllowedIds && e.description == chosen
    ensures sel.Selected? ==> sel.id in AllowedIds && CatalogEntry(sel.id, chosen) in catalog.body
    ensures sel.StoppedAt? ==> sel.outcome in {Raised(CatalogStep), UpstreamError(CatalogStep), Raised(SelectionStep)}
    ensures sel.StoppedAt? && sel.outcome.UpstreamError? <==> catalog.Reply? && catalog.status != StatusOk
    ensures sel == StoppedAt(Raised(CatalogStep)) <==> catalog.Unreachable? || (Succeeded(catalog) && catalog.body == [])
    ensures sel == StoppedAt(Raised(SelectionStep)) <==>
            Succeeded(catalog) && catalog.body != [] &&
            forall e :: e in catalog.body && e.id in AllowedIds ==> e.description != chosen
  {
    if catalog.Unreachable? then StoppedAt(Raised(CatalogStep))
    else if catalog.status != StatusOk then StoppedAt(UpstreamError(CatalogStep))
    // An empty `results` list gives a frame without an `idVariable` column.
    else if catalog.body == [] then StoppedAt(Raised(CatalogStep))
    else
      ChooseVariableSpec(catalog.body, chosen);
      match ChooseVariable(catalog.body, chosen)
      case None => StoppedAt(Raised(SelectionStep))
      case Some(id) => Selected(id)
  }

  /** The run as a whole: its outcome and the requests it issued. */
  function ScriptRun(up: Upstream, chosen: string, start: Date, end: Date): (Outcome, seq<Request>) {
    Proceed(up, SelectIndicator(up.catalog, chosen), start, end)
  }

  /** The run from the validation gate on (lines 53-143), given the catalog stage's result. */
  function Proceed(up: Upstream, sel: Selection, start: Date, end: Date): (Outcome, seq<Request>) {
    match sel
    case StoppedAt(outcome) => (outcome, [CatalogRequest])
    case Selected(id) =>
      if start > end then (InvalidRange, [CatalogRequest])
      else FetchSeries(up, id, start, end)
  }

  /** The run after a valid range and a selected indicator `id`: the three
      series requests and their normalisation. An empty indicator body, or an
      official body without a single numeric quotation, raises (the frame built
      from it has no `fecha` column). */
  function FetchSeries(up: Upstream, id: int, start: Date, end: Date): (Outcome, seq<Request>) {
    var indicatorRequest := IndicatorRequest(id, start, end, IndicatorLimit);
    var officialRequest := OfficialRequest(start, end, OfficialLimit);
    if up.indicator.Unreachable? then (Raised(IndicatorStep), [CatalogRequest, indicatorRequest])
    else if up.indicator.status != StatusOk then (UpstreamError(IndicatorStep), [CatalogRequest, indicatorRequest])
    else if up.indicator.body == [] then (Raised(IndicatorStep), [CatalogRequest, indicatorRequest])
    else if up.official.Unreachable? then (Raised(OfficialStep), [CatalogRequest, indicatorRequest, officialRequest])
    else if up.official.status != StatusOk then
      (UpstreamError(OfficialStep), [CatalogRequest, indicatorRequest, officialRequest])
    else
      var records := Flatten(up.official.body);
      if records == [] then (Raised(OfficialStep), [CatalogRequest, indicatorRequest, officialRequest])
      else
        (Reconcile(up.indicator.body, records, BlueSeries(up.blue, start, end)),
         [CatalogRequest, indicatorRequest, officialRequest, BlueRequest])
  }

  /** The join of the indicator series with the averaged official quotations,
      and the stop on an empty result. The blue series is carried along unjoined. */
  function Reconcile(indicator: seq<Obs>, records: seq<Obs>, blue: Option<seq<Obs>>): Outcome {
    var table := InnerJoin(indicator, GroupMean(records));
    if table == [] then NoData else Joined(table, blue)
  }

  /** The script from the catalog request to the joined table. */
  method Run(up: Upstream, chosen: string, start: Date, end: Date) returns (outcome: Outcome, requests: seq<Request>)
    ensures (outcome, requests) == ScriptRun(up, chosen, start, end)
    ensures start > end ==> requests == [CatalogRequest]
    ensures outcome.Joined? ==> outcome.table != [] && |outcome.table| <= |up.indicator.body|
  {
    var sel := SelectIndicator(up.catalog, chosen);
    if sel.StoppedAt? {
      return sel.outcome, [CatalogRequest];
    }
    if start > end {
      return InvalidRange, [CatalogRequest];
    }
    outcome, requests := RunSeries(up, sel.id, start, end);
  }

  /** Lines 60-143, once indicator `id` is selected and the range is valid:
      request, check and normalise each series, then join. */
  method RunSeries(up: Upstream, id: int, start: Date, end: Date) returns (outcome: Outcome, requests: seq<Request>)
    ensures (outcome, requests) == FetchSeries(up, id, start, end)
    ensures outcome.Joined? ==> outcome.table != [] && |outcome.table| <= |up.indicator.body|
  {
    requests := [CatalogRequest, IndicatorRequest(id, start, end, IndicatorLimit)];
    if up.indicator.Unreachable? {
      return Raised(IndicatorStep), requests;
    }
    if up.indicator.status != StatusOk {
      return UpstreamError(IndicatorStep), requests;
    }
    // An empty `results` list gives a frame without a `fecha` column.
    if up.indicator.body == [] {
      return Raised(IndicatorStep), requests;
    }

    requests := requests + [OfficialRequest(start, end, OfficialLimit)];
    assert requests == [CatalogRequest, IndicatorRequest(id, start, end, IndicatorLimit),
                        OfficialRequest(start, end, OfficialLimit)];
    if up.official.Unreachable? {
      return Raised(OfficialStep), requests;
    }
    if up.official.status != StatusOk {
      return UpstreamError(OfficialStep), requests;
    }
    var records := FlattenQuotes(up.official.body);
    // No numeric quotation at all: again a frame without a `fecha` column.
    if records == [] {
      return Raised(OfficialStep), requests;
    }
    var official := GroupMean(records);

    requests := requests + [BlueRequest];
    assert requests == [CatalogRequest, IndicatorRequest(id, start, end, IndicatorLimit),
                        OfficialRequest(start, end, OfficialLimit), BlueRequest];
    var blue := GetUsdBlue(up.blue, start, end);

    var table := InnerJoin(up.indicator.body, official);
    if table == [] {
      return NoData, requests;
    }
    AscendingUnique(official);
    JoinNoLongerThanIndicator(up.indicator.body, official);
    return Joined(table, blue), requests;
  }

  /** A reversed date range stops the run after the catalog request: neither the
      indicator nor the official rate is requested. When the catalog stage
      succeeds, the outcome is the range warning. */
  lemma ValidationGate(up: Upstream, chosen: string, start: Date, end: Date)
    requires start > end
    ensures ScriptRun(up, chosen, start, end).1 == [CatalogRequest]
    ensures ScriptRun(up, chosen, start, end).0 in
            {InvalidRange, Raised(CatalogStep), UpstreamError(CatalogStep), Raised(SelectionStep)}
    ensures SelectIndicator(up.catalog, chosen).Selected? ==> ScriptRun(up, chosen, start, end).0 == InvalidRange
  {
  }

  /** The requests a run issues: the catalog request alone, or, only when an
      indicator was selected and the range is valid, the catalog request followed
      by the indicator request (selected id, range), then possibly the
      official-rate request (range), then possibly the blue-rate one. */
  lemma IssuedRequests(up: Upstream, sel: Selection, start: Date, end: Date)
    ensures var requests := Proceed(up, sel, start, end).1;
            || requests == [CatalogRequest]
            || (&& sel.Selected? && start <= end
                && var indicator := IndicatorRequest(sel.id, start, end, IndicatorLimit);
                   var official := OfficialRequest(start, end, OfficialLimit);
                   || requests == [CatalogRequest, indicator]
                   || requests == [CatalogRequest, indicator, official]
                   || requests == [CatalogRequest, indicator, official, BlueRequest])
  {
  }

  /** The indicator and official-rate requests are issued only when an indicator
      was selected and the range is valid, and they carry that range, the selected
      id and the fixed limits. */
  lemma FetchesCarryValidRange(up: Upstream, sel: Selection, start: Date, end: Date, r: Request)
    requires r in Proceed(up, sel, start, end).1 && r != CatalogRequest
    ensures sel.Selected? && start <= end
    ensures r.OfficialRequest? ==> r == OfficialRequest(start, end, OfficialLimit)
    ensures r.IndicatorRequest? ==> r == IndicatorRequest(sel.id, start, end, IndicatorLimit)
  {
    IssuedRequests(up, sel, start, end);
  }

  /** The endpoint behind a step answered with a status other than 200. */
  predicate ErrorStatusAt(up: Upstream, step: Step) {
    match step
    case CatalogStep => up.catalog.Reply? && up.catalog.status != StatusOk
    case IndicatorStep => up.indicator.Reply? && up.indicator.status != StatusOk
    case OfficialStep => up.official.Reply? && up.official.status != StatusOk
    case SelectionStep => false
  }

  /** `r` is the request that fetches the endpoint behind `step`. */
  predicate RequestFor(r: Request, step: Step) {
    match step
    case CatalogStep => r.CatalogRequest?
    case IndicatorStep => r.IndicatorRequest?
    case OfficialStep => r.OfficialRequest?
    case SelectionStep => false
  }

  /** A status other than 200 from the catalog stops the run at once. */
  lemma CatalogFailureStops(up: Upstream, chosen: string, start: Date, end: Date)
    requires ErrorStatusAt(up, CatalogStep)
    ensures ScriptRun(up, chosen, start, end) == (UpstreamError(CatalogStep), [CatalogRequest])
  {
  }

  /** Once the indicator is requested, a status other than 200 stops the run
      before the official rate is requested. */
  lemma IndicatorFailureStops(up: Upstream, id: int, start: Date, end: Date)
    requires start <= end && ErrorStatusAt(up, IndicatorStep)
    ensures Proceed(up, Selected(id), start, end) ==
            (UpstreamError(IndicatorStep), [CatalogRequest, IndicatorRequest(id, start, end, IndicatorLimit)])
  {
  }

  /** Once the official rate is requested, a status other than 200 stops the run
      before the blue rate is requested and before any join. */
  lemma OfficialFailureStops(up: Upstream, id: int, start: Date, end: Date)
    requires start <= end && Succeeded(up.indicator) && up.indicator.body != []
    requires ErrorStatusAt(up, OfficialStep)
    ensures Proceed(up, Selected(id), start, end) ==
            (UpstreamError(OfficialStep),
             [CatalogRequest, IndicatorRequest(id, start, end, IndicatorLimit),
              OfficialRequest(start, end, OfficialLimit)])
  {
  }

  /** After the catalog stage, the run stops on an upstream error only when the
      indicator or official endpoint answered with a status other than 200, and
      that endpoint's request is the last one issued. */
  lemma SeriesUpstreamErrorMeansErrorStatus(up: Upstream, id: int, start: Date, end: Date)
    requires FetchSeries(up, id, start, end).0.UpstreamError?
    ensures var (outcome, requests) := FetchSeries(up, id, start, end);
            && outcome.step in {IndicatorStep, OfficialStep}
            && ErrorStatusAt(up, outcome.step) && requests != [] && RequestFor(requests[|requests| - 1], outcome.step)
  {
  }

  /** A run stops on an upstream error only when that endpoint answered with a
      status other than 200, and that endpoint's request is the last one issued. */
  lemma UpstreamErrorMeansErrorStatus(up: Upstream, chosen: string, start: Date, end: Date)
    requires ScriptRun(up, chosen, start, end).0.UpstreamError?
    ensures var (outcome, requests) := ScriptRun(up, chosen, start, end);
            ErrorStatusAt(up, outcome.step) && requests != [] && RequestFor(requests[|requests| - 1], outcome.step)
  {
    var sel := SelectIndicator(up.catalog, chosen);
    if sel.Selected? && start <= end {
      SeriesUpstreamErrorMeansErrorStatus(up, sel.id, start, end);
    }
  }

  /** A failing blue-rate source never stops the run: whatever the blue-rate
      endpoint answers, the run issues the same requests, stops or not in the
      same way, and builds the same table; only the blue series it carries along
      differs, and that series is what `get_usd_blue` returns. */
  lemma BlueNeverAborts(up: Upstream, chosen: string, start: Date, end: Date, other: Response<seq<BlueEntry>>)
    ensures var (o1, r1) := ScriptRun(up, chosen, start, end);
            var (o2, r2) := ScriptRun(up.(blue := other), chosen, start, end);
            && r1 == r2
            && (o1.Joined? <==> o2.Joined?)
            && (o1.Joined? ==> o1.table == o2.table && o1.blue == BlueSeries(up.blue, start, end))
            && (!o1.Joined? ==> o1 == o2)
  {
    var sel := SelectIndicator(up.catalog, chosen);
    if sel.Selected? && start <= end && Succeeded(up.indicator) && up.indicator.body != [] && Succeeded(up.official) {
      var records := Flatten(up.official.body);
      if records != [] {
        var table := InnerJoin(up.indicator.body, GroupMean(records));
        assert ScriptRun(up, chosen, start, end).0 ==
               if table == [] then NoData else Joined(table, BlueSeries(up.blue, start, end));
      }
    }
  }

  /** What a completed run hands to the chart: a non-empty table, no longer than
      the indicator series, whose dates are exactly those common to the
      indicator series and the official quotations, and whose official value on
      each row is the mean of that date's quotations, between their minimum and
      maximum. */
  lemma JoinedTableSpec(up: Upstream, chosen: string, start: Date, end: Date)
    requires ScriptRun(up, chosen, start, end).0.Joined?
    ensures var table := ScriptRun(up, chosen, start, end).0.table;
            var records := Flatten(up.official.body);
            && Succeeded(up.catalog) && Succeeded(up.indicator) && Succeeded(up.official)
            && table != [] && |table| <= |up.indicator.body|
            && RowDates(table) == DatesOf(up.indicator.body) * DatesOf(records)
            && forall r :: r in table ==>
                 && Obs(r.date, r.indicator) in up.indicator.body
                 && r.date in DatesOf(records)
                 && r.official == Mean(records, r.date)
                 && MinQuote(records, r.date) <= r.official <= MaxQuote(records, r.date)
  {
    var records := Flatten(up.official.body);
    var official := GroupMean(records);
    var table := InnerJoin(up.indicator.body, official);
    AscendingUnique(official);
    JoinNoLongerThanIndicator(up.indicator.body, official);
    JoinDates(up.indicator.body, official);
    forall r | r in table
      ensures r.date in DatesOf(records) && r.official == Mean(records, r.date)
      ensures MinQuote(records, r.date) <= r.official <= MaxQuote(records, r.date)
    {
      GroupMeanWithinQuotes(up.official.body, Obs(r.date, r.official));
    }
  }

  /** Once both required series are in, the run stops with "no data" exactly
      when the indicator series and the official quotations share no date. */
  lemma EmptyJoinStops(up: Upstream, chosen: string, start: Date, end: Date)
    requires SelectIndicator(up.catalog, chosen).Selected? && start <= end
    requires Succeeded(up.indicator) && up.indicator.body != []
    requires Succeeded(up.official) && Flatten(up.official.body) != []
    ensures ScriptRun(up, chosen, start, end).0 == NoData <==>
            DatesOf(up.indicator.body) !! DatesOf(Flatten(up.official.body))
    ensures ScriptRun(up, chosen, start, end).0 != NoData ==> ScriptRun(up, chosen, start, end).0.Joined?
  {
    JoinEmptyIffDisjoint(up.indicator.body, GroupMean(Flatten(up.official.body)));
  }
}
