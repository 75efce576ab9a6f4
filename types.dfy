/** The shared data model: the three-valued attendance status and the
    attendance record that the store, the report and the form all pass around. */
module Types {

  datatype Option<+T> = None | Some(value: T)

  /** The attendance status of one day. */
  datatype Status = Working | Leave | Holiday

  /** The enum's string value: what is stored and what the CSV status column shows. */
  function StatusCode(s: Status): (code: string)
    ensures |code| > 0 && ',' !in code && '\n' !in code && '"' !in code
  {
    match s
    case Working => "working"
    case Leave => "leave"
    case Holiday => "holiday"
  }

  /** Reads a status code back; the inverse of StatusCode. */
  function ParseStatus(code: string): (r: Option<Status>)
    ensures r.Some? ==> StatusCode(r.value) == code
    ensures r.None? ==> forall s: Status :: StatusCode(s) != code
  {
    if code == "working" then Some(Working)
    else if code == "leave" then Some(Leave)
    else if code == "holiday" then Some(Holiday)
    else None
  }

  /** Distinct statuses are stored under distinct codes. */
  lemma StatusCodeInjective(a: Status, b: Status)
    ensures StatusCode(a) == StatusCode(b) <==> a == b
  {
  }

  /** Reading a status's code back gives the status. */
  lemma ParseStatusCode(s: Status)
    ensures ParseStatus(StatusCode(s)) == Some(s)
  {
  }

  predicate IsDigit(c: char)
  {
    '0' <= c <= '9'
  }

  /** A calendar-day key of the form yyyy-MM-dd. */
  predicate IsIsoDate(s: string)
  {
    && |s| == 10
    && s[4] == '-' && s[7] == '-'
    && (forall i :: 0 <= i < 10 && i != 4 && i != 7 ==> IsDigit(s[i]))
  }

  /** One stored attendance record. `id`, `date` and `status` are always
      present; the visit fields and the hours are optional. `date` is the
      key the store matches on. */
  datatype Entry = Entry(
    id: string,
    date: string,
    status: Status,
    placeVisit: Option<string>,
    purposeVisit: Option<string>,
    hoursWorked: Option<int>)

  /** A record before the store gives it an id. */
  datatype Draft = Draft(
    date: string,
    status: Status,
    placeVisit: Option<string>,
    purposeVisit: Option<string>,
    hoursWorked: Option<int>)

  /** The draft's fields spread into a record with the given id. */
  function WithId(d: Draft, id: string): Entry
  {
    Entry(id, d.date, d.status, d.placeVisit, d.purposeVisit, d.hoursWorked)
  }

  /** Hours as used by the totals and the export: an absent (or zero) value is 0. */
  function HoursOrZero(h: Option<int>): int
  {
    match h
    case None => 0
    case Some(n) => n
  }
}
