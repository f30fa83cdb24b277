/** `pd.merge(indicator, official, on="fecha", how="inner")`. */
module SeriesJoin {
  import opened Records

  /** One row of the joined table. */
  datatype Row = Row(date: Date, indicator: real, official: real)

  function RowDates(rows: seq<Row>): set<Date> {
    set r | r in rows :: r.date
  }

  /** The rows one indicator observation contributes: one per official
      observation of the same date, in the official series' order. */
  function MatchesOf(o: Obs, official: seq<Obs>): (rows: seq<Row>)
    ensures forall r :: r in rows <==> r.date == o.date && r.indicator == o.value && Obs(o.date, r.official) in official
    ensures o.date !in DatesOf(official) ==> rows == []
  {
    if official == [] then []
    else
      (if official[0].date == o.date then [Row(o.date, o.value, official[0].value)] else [])
        + MatchesOf(o, official[1..])
  }

  /** The inner join, in the indicator series' order. */
  function InnerJoin(indicator: seq<Obs>, official: seq<Obs>): (rows: seq<Row>)
    ensures forall r :: r in rows <==> Obs(r.date, r.indicator) in indicator && Obs(r.date, r.official) in official
  {
    if indicator == [] then []
    else
      assert indicator == [indicator[0]] + indicator[1..];
      MatchesOf(indicator[0], official) + InnerJoin(indicator[1..], official)
  }

  /** A date is in the joined table exactly when both series have it. */
  lemma JoinDates(indicator: seq<Obs>, official: seq<Obs>)
    ensures RowDates(InnerJoin(indicator, official)) == DatesOf(indicator) * DatesOf(official)
  {
    var rows := InnerJoin(indicator, official);
    forall d | d in DatesOf(indicator) * DatesOf(official) ensures d in RowDates(rows) {
      var a :| a in indicator && a.date == d;
      var b :| b in official && b.date == d;
      assert Row(d, a.value, b.value) in rows;
    }
  }

  /** The join is empty exactly when the two series share no date. */
  lemma JoinEmptyIffDisjoint(indicator: seq<Obs>, official: seq<Obs>)
    ensures InnerJoin(indicator, official) == [] <==> DatesOf(indicator) !! DatesOf(official)
  {
    JoinDates(indicator, official);
    var rows := InnerJoin(indicator, official);
    if rows != [] {
      assert rows[0].date in RowDates(rows);
    } else {
      forall d | d in DatesOf(indicator) ensures d !in DatesOf(official) {
        assert d !in RowDates(rows);
      }
    }
  }

  lemma {:induction false} AtMostOneMatch(o: Obs, official: seq<Obs>)
    requires UniqueDates(official)
    ensures |MatchesOf(o, official)| <= 1
  {
    if official != [] {
      var rest := official[1..];
      AtMostOneMatch(o, rest);
      if official[0].date == o.date {
        assert forall j :: 0 <= j < |rest| ==> rest[j].date != o.date by {
          forall j | 0 <= j < |rest| ensures rest[j].date != o.date {
            assert rest[j] == official[j + 1];
          }
        }
        assert o.date !in DatesOf(rest);
      }
    }
  }

  /** With unique official dates, each indicator observation yields at most one
      row, so the table is never longer than the indicator series. */
  lemma {:induction false} JoinNoLongerThanIndicator(indicator: seq<Obs>, official: seq<Obs>)
    requires UniqueDates(official)
    ensures |InnerJoin(indicator, official)| <= |indicator|
  {
    if indicator != [] {
      AtMostOneMatch(indicator[0], official);
      JoinNoLongerThanIndicator(indicator[1..], official);
    }
  }
}
