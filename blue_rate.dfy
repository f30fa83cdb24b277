/** The parallel-market ("blue") USD rate: keep the entries tagged "Blue", keep
    the requested date range, and take the midpoint of buy and sell. */
module BlueRate {
  import opened Records

  /** One element of the blue-rate feed's full history. */
  datatype BlueEntry = BlueEntry(date: Date, source: string, buy: real, sell: real)

  const BlueTag: string := "Blue"

  /** The list comprehension keeping the entries whose source is "Blue", in order. */
  function BlueOnly(data: seq<BlueEntry>): (blue: seq<BlueEntry>)
    ensures forall e :: e in blue <==> e in data && e.source == BlueTag
    ensures |blue| <= |data|
  {
    if data == [] then []
    else (if data[0].source == BlueTag then [data[0]] else []) + BlueOnly(data[1..])
  }

  /** The blue rate of one entry: (buy + sell) / 2, equally far from both prices. */
  function Midpoint(e: BlueEntry): (m: real)
    ensures m - e.buy == e.sell - m
    ensures e.buy <= e.sell ==> e.buy <= m <= e.sell
    ensures e.sell <= e.buy ==> e.sell <= m <= e.buy
  {
    (e.buy + e.sell) / 2.0
  }

  predicate InRange(date: Date, start: Date, end: Date) {
    start <= date <= end
  }

  /** The rows of `entries` dated within [start, end], each turned into its midpoint. */
  function InRangeMidpoints(entries: seq<BlueEntry>, start: Date, end: Date): seq<Obs> {
    if entries == [] then []
    else
      var last := entries[|entries| - 1];
      InRangeMidpoints(entries[..|entries| - 1], start, end)
        + (if InRange(last.date, start, end) then [Obs(last.date, Midpoint(last))] else [])
  }

  /** What `get_usd_blue` returns. None when the request raised, the status is
      not 200, or no entry is tagged "Blue" (the empty frame has no `date`
      column and the KeyError is caught); otherwise the in-range midpoints,
      possibly none. */
  function BlueSeries(resp: Response<seq<BlueEntry>>, start: Date, end: Date): (series: Option<seq<Obs>>)
    ensures series.None? <==> !Succeeded(resp) || forall e :: e in resp.body ==> e.source != BlueTag
  {
    if !Succeeded(resp) then None
    else
      var blue := BlueOnly(resp.body);
      if blue == [] then None
      else
        assert blue[0] in resp.body;
        Some(InRangeMidpoints(blue, start, end))
  }

  /** The date-range filter and the midpoint column of `get_usd_blue`, row by row. */
  method MidpointRows(blue: seq<BlueEntry>, start: Date, end: Date) returns (rows: seq<Obs>)
    ensures rows == InRangeMidpoints(blue, start, end)
  {
    rows := [];
    for i := 0 to |blue|
      invariant rows == InRangeMidpoints(blue[..i], start, end)
    {
      var e := blue[i];
      if InRange(e.date, start, end) {
        rows := rows + [Obs(e.date, Midpoint(e))];
      }
      assert blue[..i + 1][..i] == blue[..i];
    }
    assert blue[..|blue|] == blue;
  }

  /** `get_usd_blue`: the status check, the "Blue" filter, then the rows. */
  method GetUsdBlue(resp: Response<seq<BlueEntry>>, start: Date, end: Date) returns (series: Option<seq<Obs>>)
    ensures series == BlueSeries(resp, start, end)
  {
    if resp.Unreachable? || resp.status != StatusOk {
      return None;
    }
    var blue := BlueOnly(resp.body);
    if blue == [] {
      return None;
    }
    var rows := MidpointRows(blue, start, end);
    return Some(rows);
  }

  lemma {:induction false} InRangeMidpointsMembers(entries: seq<BlueEntry>, start: Date, end: Date, o: Obs)
    ensures o in InRangeMidpoints(entries, start, end) <==>
            exists e :: e in entries && InRange(e.date, start, end) && o == Obs(e.date, Midpoint(e))
  {
    if entries != [] {
      var n := |entries| - 1;
      InRangeMidpointsMembers(entries[..n], start, end, o);
      assert entries == entries[..n] + [entries[n]];
    }
  }

  /** The blue series holds exactly the midpoints of the "Blue" entries dated
      within [start, end], both ends included. */
  lemma BlueSeriesMembers(resp: Response<seq<BlueEntry>>, start: Date, end: Date, o: Obs)
    requires BlueSeries(resp, start, end).Some?
    ensures o in BlueSeries(resp, start, end).value <==>
            exists e :: e in resp.body && e.source == BlueTag && start <= e.date <= end
                        && o == Obs(e.date, Midpoint(e))
  {
    InRangeMidpointsMembers(BlueOnly(resp.body), start, end, o);
  }

  /** Each blue value lies between the buy and the sell price of an entry of that date. */
  lemma BlueValueBetweenPrices(resp: Response<seq<BlueEntry>>, start: Date, end: Date, o: Obs)
    requires BlueSeries(resp, start, end).Some? && o in BlueSeries(resp, start, end).value
    ensures exists e :: e in resp.body && e.source == BlueTag && e.date == o.date
                        && (e.buy <= o.value <= e.sell || e.sell <= o.value <= e.buy)
  {
    BlueSeriesMembers(resp, start, end, o);
  }
}
