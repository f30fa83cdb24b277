/** The official USD rate: flattening each day's quotation list into
    (date, quotation) records, and the per-date mean of those records. */
module OfficialRate {
  import opened Records

  /** A `tipoCotizacion` field: a JSON number, or anything else (null, text, ...). */
  datatype Quote = Num(value: real) | NonNum

  /** One element of the official endpoint's `results`: a date with its `detalle` list. */
  datatype OfficialDay = OfficialDay(date: Date, quotes: seq<Quote>)

  /** The records the inner loop appends for one day whose first |qs| quotations are `qs`. */
  function NumericOf(date: Date, qs: seq<Quote>): seq<Obs> {
    if qs == [] then []
    else
      var last := qs[|qs| - 1];
      NumericOf(date, qs[..|qs| - 1]) + (if last.Num? then [Obs(date, last.value)] else [])
  }

  /** The records the outer loop has appended after the days `days`. */
  function Flatten(days: seq<OfficialDay>): seq<Obs> {
    if days == [] then []
    else
      var last := days[|days| - 1];
      Flatten(days[..|days| - 1]) + NumericOf(last.date, last.quotes)
  }

  /** The nested loop that fills `usd_registros`: every numeric quotation of
      every day, paired with that day's date, in input order. */
  method FlattenQuotes(days: seq<OfficialDay>) returns (records: seq<Obs>)
    ensures records == Flatten(days)
  {
    records := [];
    for i := 0 to |days|
      invariant records == Flatten(days[..i])
    {
      var day := days[i];
      for j := 0 to |day.quotes|
        invariant records == Flatten(days[..i]) + NumericOf(day.date, day.quotes[..j])
      {
        var q := day.quotes[j];
        if q.Num? {
          records := records + [Obs(day.date, q.value)];
        }
        assert day.quotes[..j + 1][..j] == day.quotes[..j];
      }
      assert day.quotes[..|day.quotes|] == day.quotes;
      assert days[..i + 1][..i] == days[..i];
    }
    assert days[..|days|] == days;
  }

  lemma {:induction false} NumericOfMembers(date: Date, qs: seq<Quote>, o: Obs)
    ensures o in NumericOf(date, qs) <==> o.date == date && Num(o.value) in qs
  {
    if qs != [] {
      NumericOfMembers(date, qs[..|qs| - 1], o);
      assert qs == qs[..|qs| - 1] + [qs[|qs| - 1]];
    }
  }

  /** Flattening keeps exactly the numeric quotations, each with its day's date. */
  lemma {:induction false} FlattenMembers(days: seq<OfficialDay>, o: Obs)
    ensures o in Flatten(days) <==>
            exists i :: 0 <= i < |days| && days[i].date == o.date && Num(o.value) in days[i].quotes
  {
    if days != [] {
      var n := |days| - 1;
      FlattenMembers(days[..n], o);
      NumericOfMembers(days[n].date, days[n].quotes, o);
      if o in Flatten(days[..n]) {
        var i :| 0 <= i < n && days[..n][i].date == o.date && Num(o.value) in days[..n][i].quotes;
        assert days[i] == days[..n][i];
      }
      if exists i :: 0 <= i < |days| && days[i].date == o.date && Num(o.value) in days[i].quotes {
        var i :| 0 <= i < |days| && days[i].date == o.date && Num(o.value) in days[i].quotes;
        if i < n {
          assert days[..n][i] == days[i];
        }
      }
    }
  }

  /** Flattening preserves input order: the records of earlier days come first. */
  lemma {:induction false} FlattenAppend(a: seq<OfficialDay>, b: seq<OfficialDay>)
    ensures Flatten(a + b) == Flatten(a) + Flatten(b)
  {
    if b != [] {
      var n := |b| - 1;
      assert (a + b)[..|a + b| - 1] == a + b[..n];
      FlattenAppend(a, b[..n]);
    } else {
      assert a + b == a;
    }
  }

  /** How many records carry date `d`. */
  function Count(records: seq<Obs>, d: Date): nat {
    if records == [] then 0
    else (if records[0].date == d then 1 else 0) + Count(records[1..], d)
  }

  /** The sum of the values of the records that carry date `d`. */
  function Sum(records: seq<Obs>, d: Date): real {
    if records == [] then 0.0
    else (if records[0].date == d then records[0].value else 0.0) + Sum(records[1..], d)
  }

  lemma {:induction false} CountPositive(records: seq<Obs>, d: Date)
    ensures Count(records, d) > 0 <==> d in DatesOf(records)
  {
    if records != [] {
      CountPositive(records[1..], d);
      assert records == [records[0]] + records[1..];
      assert DatesOf(records) == {records[0].date} + DatesOf(records[1..]);
    }
  }

  /** The arithmetic mean of the values recorded for `d`. */
  function Mean(records: seq<Obs>, d: Date): real
    requires d in DatesOf(records)
  {
    CountPositive(records, d);
    Sum(records, d) / (Count(records, d) as real)
  }

  lemma PrependAscending(k: Date, rest: seq<Date>)
    requires Ascending(rest) && forall x :: x in rest ==> k < x
    ensures Ascending([k] + rest)
  {
    var r := [k] + rest;
    forall i, j | 0 <= i < j < |r| ensures r[i] < r[j] {
      assert r[j] == rest[j - 1] && rest[j - 1] in rest;
      if i > 0 {
        assert r[i] == rest[i - 1];
      }
    }
  }

  /** Inserts `d` into an ascending key list unless it is already there. */
  function InsertDate(d: Date, ks: seq<Date>): (r: seq<Date>)
    requires Ascending(ks)
    ensures Ascending(r)
    ensures forall x :: x in r <==> x == d || x in ks
  {
    if ks == [] then [d]
    else if d < ks[0] then
      PrependAscending(d, ks);
      [d] + ks
    else if d == ks[0] then ks
    else
      var rest := InsertDate(d, ks[1..]);
      assert forall x :: x in ks[1..] ==> ks[0] < x by {
        forall x | x in ks[1..] ensures ks[0] < x {
          var j :| 0 <= j < |ks[1..]| && ks[1..][j] == x;
          assert ks[j + 1] == x;
        }
      }
      PrependAscending(ks[0], rest);
      [ks[0]] + rest
  }

  /** The distinct dates of `records`, ascending: the group keys of `groupby("fecha")`. */
  function GroupKeys(records: seq<Obs>): (ks: seq<Date>)
    ensures Ascending(ks)
    ensures forall x :: x in ks <==> x in DatesOf(records)
  {
    if records == [] then []
    else
      assert DatesOf(records) == {records[0].date} + DatesOf(records[1..]);
      InsertDate(records[0].date, GroupKeys(records[1..]))
  }

  /** `groupby("fecha").mean()`: one observation per distinct date, dates ascending,
      each carrying the mean of the quotations recorded for that date. */
  function GroupMean(records: seq<Obs>): (g: seq<Obs>)
    ensures AscendingDates(g)
    ensures DatesOf(g) == DatesOf(records)
    ensures forall o :: o in g ==> o.date in DatesOf(records) && o.value == Mean(records, o.date)
  {
    var ks := GroupKeys(records);
    var g := seq(|ks|, i requires 0 <= i < |ks| => Obs(ks[i], Mean(records, ks[i])));
    assert forall d :: d in DatesOf(g) <==> d in ks by {
      forall d ensures d in DatesOf(g) <==> d in ks {
        if d in ks {
          var i :| 0 <= i < |ks| && ks[i] == d;
          assert g[i].date == d;
        }
      }
    }
    g
  }

  lemma ScaleSucc(a: real, c: real)
    ensures a * (c + 1.0) == a * c + a
  {
  }

  lemma {:induction false} SumAtLeast(records: seq<Obs>, d: Date, lo: real)
    requires forall i :: 0 <= i < |records| && records[i].date == d ==> lo <= records[i].value
    ensures lo * (Count(records, d) as real) <= Sum(records, d)
  {
    if records != [] {
      SumAtLeast(records[1..], d, lo);
      ScaleSucc(lo, Count(records[1..], d) as real);
    }
  }

  lemma {:induction false} SumAtMost(records: seq<Obs>, d: Date, hi: real)
    requires forall i :: 0 <= i < |records| && records[i].date == d ==> records[i].value <= hi
    ensures Sum(records, d) <= hi * (Count(records, d) as real)
  {
    if records != [] {
      SumAtMost(records[1..], d, hi);
      ScaleSucc(hi, Count(records[1..], d) as real);
    }
  }

  lemma QuotientBetween(total: real, c: real, lo: real, hi: real)
    requires c > 0.0 && lo * c <= total <= hi * c
    ensures lo <= total / c <= hi
  {
    var q := total / c;
    assert q * c == total;
  }

  /** A daily mean lies within any bounds that every quotation of that date respects. */
  lemma MeanBetween(records: seq<Obs>, d: Date, lo: real, hi: real)
    requires d in DatesOf(records)
    requires forall o :: o in records && o.date == d ==> lo <= o.value <= hi
    ensures lo <= Mean(records, d) <= hi
  {
    CountPositive(records, d);
    SumAtLeast(records, d, lo);
    SumAtMost(records, d, hi);
    QuotientBetween(Sum(records, d), Count(records, d) as real, lo, hi);
  }

  /** The smallest value recorded for `d`. */
  function MinQuote(records: seq<Obs>, d: Date): (m: real)
    requires d in DatesOf(records)
    ensures Obs(d, m) in records
    ensures forall o :: o in records && o.date == d ==> m <= o.value
  {
    assert DatesOf(records) == {records[0].date} + DatesOf(records[1..]);
    if d !in DatesOf(records[1..]) then
      assert forall o :: o in records && o.date == d ==> o == records[0];
      records[0].value
    else
      var m := MinQuote(records[1..], d);
      if records[0].date == d && records[0].value < m then records[0].value else m
  }

  /** The largest value recorded for `d`. */
  function MaxQuote(records: seq<Obs>, d: Date): (m: real)
    requires d in DatesOf(records)
    ensures Obs(d, m) in records
    ensures forall o :: o in records && o.date == d ==> o.value <= m
  {
    assert DatesOf(records) == {records[0].date} + DatesOf(records[1..]);
    if d !in DatesOf(records[1..]) then
      assert forall o :: o in records && o.date == d ==> o == records[0];
      records[0].value
    else
      var m := MaxQuote(records[1..], d);
      if records[0].date == d && records[0].value > m then records[0].value else m
  }

  /** Every averaged official rate lies between the lowest and the highest
      numeric quotation published for its date. */
  lemma GroupMeanWithinQuotes(days: seq<OfficialDay>, o: Obs)
    requires o in GroupMean(Flatten(days))
    ensures MinQuote(Flatten(days), o.date) <= o.value <= MaxQuote(Flatten(days), o.date)
    ensures exists i :: 0 <= i < |days| && days[i].date == o.date && Num(MinQuote(Flatten(days), o.date)) in days[i].quotes
    ensures exists i :: 0 <= i < |days| && days[i].date == o.date && Num(MaxQuote(Flatten(days), o.date)) in days[i].quotes
  {
    var records := Flatten(days);
    assert o.date in DatesOf(records) && o.value == Mean(records, o.date);
    var lo, hi := MinQuote(records, o.date), MaxQuote(records, o.date);
    MeanBetween(records, o.date, lo, hi);
    FlattenMembers(days, Obs(o.date, lo));
    FlattenMembers(days, Obs(o.date, hi));
  }
}
