/** Concrete runs of the pipeline's stages on small inputs. */
module Scenarios {
  import opened Records
  import opened Catalog
  import opened OfficialRate
  import opened BlueRate
  import opened SeriesJoin
  import opened Pipeline

  /** Two numeric quotations of one day, 1100.5 and 1102.0, plus a non-numeric
      one, average to 1101.25. */
  lemma OfficialDayAverages(d: Date)
    ensures GroupMean(Flatten([OfficialDay(d, [Num(1100.5), NonNum, Num(1102.0)])])) == [Obs(d, 1101.25)]
  {
    var qs := [Num(1100.5), NonNum, Num(1102.0)];
    var first := [Num(1100.5)];
    assert first[..0] == [];
    assert NumericOf(d, first) == [Obs(d, 1100.5)];
    assert qs[..2][..1] == first;
    assert NumericOf(d, qs[..2]) == [Obs(d, 1100.5)];
    assert NumericOf(d, qs) == [Obs(d, 1100.5), Obs(d, 1102.0)];
    var days := [OfficialDay(d, qs)];
    assert days[..0] == [];
    assert Flatten(days) == Flatten(days[..0]) + NumericOf(d, qs);
    var records := Flatten(days);
    assert records == [Obs(d, 1100.5), Obs(d, 1102.0)];
    assert records[1..] == [Obs(d, 1102.0)] && records[1..][1..] == [];
    assert GroupKeys(records[1..]) == [d];
    assert GroupKeys(records) == [d];
    assert Count(records[1..], d) == 1 && Sum(records[1..], d) == 1102.0;
    assert Count(records, d) == 2;
    assert Sum(records, d) == 2202.5;
  }

  /** Buy 1195 and sell 1215 give a blue rate of 1205. */
  lemma BlueMidpointExample(d: Date)
    ensures Midpoint(BlueEntry(d, BlueTag, 1195.0, 1215.0)) == 1205.0
  {
  }

  /** Indicator dates {1, 2, 3} joined with official dates {2, 3, 4} give the rows of dates 2 and 3. */
  lemma JoinExample()
    ensures InnerJoin([Obs(1, 10.0), Obs(2, 20.0), Obs(3, 30.0)], [Obs(2, 0.5), Obs(3, 0.75), Obs(4, 1.0)])
            == [Row(2, 20.0, 0.5), Row(3, 30.0, 0.75)]
  {
    var official := [Obs(2, 0.5), Obs(3, 0.75), Obs(4, 1.0)];
    assert official[1..] == [Obs(3, 0.75), Obs(4, 1.0)] && official[1..][1..] == [Obs(4, 1.0)];
    assert MatchesOf(Obs(3, 30.0), official[1..][1..]) == [];
    assert MatchesOf(Obs(1, 10.0), official) == [];
    assert MatchesOf(Obs(2, 20.0), official) == [Row(2, 20.0, 0.5)];
    assert MatchesOf(Obs(3, 30.0), official) == [Row(3, 30.0, 0.75)];
    var indicator := [Obs(1, 10.0), Obs(2, 20.0), Obs(3, 30.0)];
    assert indicator[1..] == [Obs(2, 20.0), Obs(3, 30.0)] && indicator[1..][1..] == [Obs(3, 30.0)];
    assert InnerJoin(indicator[1..][1..], official) == [Row(3, 30.0, 0.75)];
    assert InnerJoin(indicator[1..], official) == [Row(2, 20.0, 0.5), Row(3, 30.0, 0.75)];
  }
}
