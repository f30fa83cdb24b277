/** Types shared by every stage of the reconciliation pipeline. */
module Records {

  datatype Option<+T> = None | Some(value: T)

  /** What an upstream endpoint gave back: an HTTP status code with the decoded
      `results` body, or nothing at all because the request itself raised. */
  datatype Response<+T> = Reply(status: int, body: T) | Unreachable

  const StatusOk: int := 200

  predicate Succeeded<T>(resp: Response<T>) {
    resp.Reply? && resp.status == StatusOk
  }

  /** A calendar date, as a day ordinal. */
  type Date = int

  /** One (date, value) observation of a series. */
  datatype Obs = Obs(date: Date, value: real)

  function DatesOf(s: seq<Obs>): set<Date> {
    set o | o in s :: o.date
  }

  /** No date occurs twice in `s`. */
  predicate UniqueDates(s: seq<Obs>) {
    forall i, j :: 0 <= i < j < |s| ==> s[i].date != s[j].date
  }

  /** A key list strictly ascends. */
  predicate Ascending(ks: seq<Date>) {
    forall i, j :: 0 <= i < j < |ks| ==> ks[i] < ks[j]
  }

  /** The observations' dates strictly ascend: `Ascending` read through `.date`. */
  predicate AscendingDates(s: seq<Obs>) {
    forall i, j :: 0 <= i < j < |s| ==> s[i].date < s[j].date
  }

  /** Strictly ascending dates are unique. */
  lemma AscendingUnique(s: seq<Obs>)
    requires AscendingDates(s)
    ensures UniqueDates(s)
  {
  }
}
