/** The local-first attendance store: one storage slot holding every record,
    an upsert keyed by calendar date, one best-effort post of the saved record
    to the spreadsheet web app, and the derived statistics. */
module AttendanceService {
  import opened Types

  /** The name of the storage slot that holds the whole list. */
  const StorageKey := "staff_sync_attendance_data"

  /** The spreadsheet web app the store is configured with. */
  const SpreadsheetWebAppUrl := "https://script.google.com/macros/s/AKfycbw9kyp_Dv5P-lxX7Xh1D6BAtDXOsAkHpnLP_KZPaa-uyHkh4TQTslV3V6uAwzK2q8tr8w/exec"

  /** The error reported when the post to the web app throws. */
  const ConnectionErrorText := "Connection error. Data saved on your device."

  // ---------------------------------------------------------------------------
  // Upsert by date
  // ---------------------------------------------------------------------------

  /** The index of the first record for `date`, or -1 when there is none. */
  function FirstIndexOfDate(data: seq<Entry>, date: string): (i: int)
    ensures -1 <= i < |data|
    ensures i == -1 <==> forall k :: 0 <= k < |data| ==> data[k].date != date
    ensures 0 <= i ==> data[i].date == date && forall k :: 0 <= k < i ==> data[k].date != date
    decreases |data|
  {
    if |data| == 0 then -1
    else if data[0].date == date then 0
    else
      var r := FirstIndexOfDate(data[1..], date);
      if r == -1 then -1 else r + 1
  }

  /** An index holding the date with no earlier one holding it is the first index. */
  lemma FirstIndexIs(data: seq<Entry>, date: string, i: int)
    requires 0 <= i < |data| && data[i].date == date
    requires forall k :: 0 <= k < i ==> data[k].date != date
    ensures FirstIndexOfDate(data, date) == i
  {
  }

  /** The list after saving `e`: the first record with e's date is replaced in
      place by `e` carrying the old record's id; with no such record, `e` is
      appended. */
  function Upsert(data: seq<Entry>, e: Entry): (r: seq<Entry>)
    ensures |r| == |data| + (if FirstIndexOfDate(data, e.date) == -1 then 1 else 0)
    ensures var i := FirstIndexOfDate(r, e.date); 0 <= i && r[i] == e.(id := r[i].id)
    ensures forall k :: 0 <= k < |data| && data[k].date != e.date ==> r[k] == data[k]
  {
    var i := FirstIndexOfDate(data, e.date);
    if i == -1 then
      FirstIndexIs(data + [e], e.date, |data|);
      data + [e]
    else
      FirstIndexIs(data[i := e.(id := data[i].id)], e.date, i);
      data[i := e.(id := data[i].id)]
  }

  /** At most one record per date. */
  ghost predicate UniqueDates(data: seq<Entry>)
  {
    forall p, q :: 0 <= p < q < |data| ==> data[p].date != data[q].date
  }

  /** The records whose date differs from `date`, in list order. */
  function OtherDates(data: seq<Entry>, date: string): (r: seq<Entry>)
    ensures forall k :: 0 <= k < |r| ==> r[k].date != date
    decreases |data|
  {
    if |data| == 0 then []
    else if data[0].date == date then OtherDates(data[1..], date)
    else [data[0]] + OtherDates(data[1..], date)
  }

  /** Saving for a date already present replaces the record at that same
      index; it keeps the old id and takes every other field from `e`. */
  lemma UpsertReplacesInPlace(data: seq<Entry>, e: Entry, i: nat)
    requires i < |data| && data[i].date == e.date
    requires forall k :: 0 <= k < i ==> data[k].date != e.date
    ensures |Upsert(data, e)| == |data|
    ensures Upsert(data, e)[i] == e.(id := data[i].id)
    ensures forall k :: 0 <= k < |data| && k != i ==> Upsert(data, e)[k] == data[k]
  {
    assert FirstIndexOfDate(data, e.date) == i;
  }

  /** Saving for a new date appends exactly one record at the end. */
  lemma UpsertAppends(data: seq<Entry>, e: Entry)
    requires forall k :: 0 <= k < |data| ==> data[k].date != e.date
    ensures Upsert(data, e) == data + [e]
    ensures |Upsert(data, e)| == |data| + 1
  {
  }

  lemma {:induction false} OtherDatesAppend(data: seq<Entry>, e: Entry)
    ensures OtherDates(data + [e], e.date) == OtherDates(data, e.date)
    decreases |data|
  {
    if |data| == 0 {
    } else {
      assert (data + [e])[1..] == data[1..] + [e];
      OtherDatesAppend(data[1..], e);
    }
  }

  lemma {:induction false} OtherDatesUpdate(data: seq<Entry>, i: nat, x: Entry, date: string)
    requires i < |data| && data[i].date == date && x.date == date
    ensures OtherDates(data[i := x], date) == OtherDates(data, date)
    decreases |data|
  {
    if i > 0 {
      assert data[i := x][1..] == data[1..][i - 1 := x];
      OtherDatesUpdate(data[1..], i - 1, x, date);
    }
  }

  /** Records for other dates are untouched by a save and keep their order. */
  lemma UpsertKeepsOtherDates(data: seq<Entry>, e: Entry)
    ensures OtherDates(Upsert(data, e), e.date) == OtherDates(data, e.date)
  {
    var i := FirstIndexOfDate(data, e.date);
    if i == -1 {
      OtherDatesAppend(data, e);
    } else {
      OtherDatesUpdate(data, i, e.(id := data[i].id), e.date);
    }
  }

  /** A save keeps "one record per date", and afterwards exactly one record
      carries the saved date. */
  lemma UpsertKeepsUniqueDates(data: seq<Entry>, e: Entry)
    requires UniqueDates(data)
    ensures UniqueDates(Upsert(data, e))
    ensures exists k :: 0 <= k < |Upsert(data, e)| && Upsert(data, e)[k].date == e.date
  {
    var r := Upsert(data, e);
    var i := FirstIndexOfDate(data, e.date);
    if i == -1 {
      assert r[|data|].date == e.date;
    } else {
      assert r[i].date == e.date;
    }
  }

  /** Two saves for the same date leave one record for that date at the
      index the first save used, with the id the first save stored and every
      other field from the second entry. */
  lemma UpsertSameDateTwice(data: seq<Entry>, e1: Entry, e2: Entry)
    requires UniqueDates(data) && e1.date == e2.date
    ensures var once := Upsert(data, e1);
            var i := FirstIndexOfDate(once, e1.date);
            && 0 <= i
            && |Upsert(once, e2)| == |once|
            && Upsert(once, e2)[i] == e2.(id := once[i].id)
            && UniqueDates(Upsert(once, e2))
  {
    var once := Upsert(data, e1);
    UpsertKeepsUniqueDates(data, e1);
    var i := FirstIndexOfDate(once, e1.date);
    UpsertReplacesInPlace(once, e2, i);
    UpsertKeepsUniqueDates(once, e2);
  }

  // ---------------------------------------------------------------------------
  // Synchronisation result
  // ---------------------------------------------------------------------------

  /** How the post to the web app ended: it completed (the response is opaque
      and never inspected) or it threw. */
  datatype SendOutcome = Completed | Threw

  datatype SyncResult = SyncResult(success: bool, error: Option<string>)

  /** The result reported for a save; `configured` says whether a web app
      address is set. */
  function SyncOutcome(configured: bool, send: SendOutcome): (r: SyncResult)
    ensures !configured ==> r == SyncResult(true, None)
    ensures configured && send == Completed ==> r == SyncResult(true, None)
    ensures configured && send == Threw ==> r == SyncResult(false, Some(ConnectionErrorText))
    ensures r.success <==> r.error.None?
  {
    if configured && send == Threw then SyncResult(false, Some(ConnectionErrorText))
    else SyncResult(true, None)
  }

  /** With the shipped address configured, a save fails exactly when the post throws. */
  lemma ShippedConfigurationFailsOnlyOnThrow(send: SendOutcome)
    ensures SyncOutcome(SpreadsheetWebAppUrl != "", send).success <==> send == Completed
  {
  }

  /** Observable effects of the store, in the order they happen. */
  datatype Effect =
    | StorageWrite(key: string, data: seq<Entry>)
    | RemotePost(url: string, body: Entry)

  // ---------------------------------------------------------------------------
  // Statistics
  // ---------------------------------------------------------------------------

  datatype Stats = Stats(workingDays: nat, leaveDays: nat, holidayDays: nat, totalHours: int)

  /** `data.filter(e => e.status === s)`. */
  function Filter(data: seq<Entry>, s: Status): (r: seq<Entry>)
    ensures |r| <= |data|
    ensures forall k :: 0 <= k < |r| ==> r[k].status == s && r[k] in data
    ensures forall k :: 0 <= k < |data| && data[k].status == s ==> data[k] in r
    decreases |data|
  {
    if |data| == 0 then []
    else if data[0].status == s then [data[0]] + Filter(data[1..], s)
    else Filter(data[1..], s)
  }

  /** The filter keeps every record with the status as often as the list holds
      it, and no other record, so its length is the number of such records. */
  lemma {:induction false} FilterMultiset(data: seq<Entry>, s: Status)
    ensures forall x :: multiset(Filter(data, s))[x] == (if x.status == s then multiset(data)[x] else 0)
    decreases |data|
  {
    if |data| > 0 {
      FilterMultiset(data[1..], s);
      assert data == [data[0]] + data[1..];
    }
  }

  /** `data.reduce((acc, e) => acc + (e.hoursWorked || 0), 0)`, a left fold. */
  function SumHours(data: seq<Entry>): (total: int)
    ensures (forall k :: 0 <= k < |data| ==> HoursOrZero(data[k].hoursWorked) >= 0) ==> total >= 0
  {
    if |data| == 0 then 0 else SumHours(data[..|data| - 1]) + HoursOrZero(data[|data| - 1].hoursWorked)
  }

  /** The total does not depend on the fold's direction: it is also the first
      record's hours plus the total of the rest. */
  lemma {:induction false} SumHoursFirst(data: seq<Entry>)
    requires |data| >= 1
    ensures SumHours(data) == HoursOrZero(data[0].hoursWorked) + SumHours(data[1..])
    decreases |data|
  {
    if |data| > 1 {
      var n := |data|;
      assert data[..n - 1][1..] == data[1..][..n - 2];
      assert data[1..][n - 2] == data[n - 1];
      SumHoursFirst(data[..n - 1]);
    } else {
      assert data[..0] == [] && data[1..] == [];
    }
  }

  /** Every record is counted under exactly one status. */
  lemma {:induction false} StatusPartition(data: seq<Entry>)
    ensures |Filter(data, Working)| + |Filter(data, Leave)| + |Filter(data, Holiday)| == |data|
    decreases |data|
  {
    if |data| > 0 {
      StatusPartition(data[1..]);
    }
  }

  function ComputeStats(data: seq<Entry>): (r: Stats)
    ensures r.workingDays + r.leaveDays + r.holidayDays == |data|
    ensures data == [] ==> r == Stats(0, 0, 0, 0)
  {
    StatusPartition(data);
    Stats(|Filter(data, Working)|, |Filter(data, Leave)|, |Filter(data, Holiday)|, SumHours(data))
  }

  /** The statistics with one more record counted. */
  function Tally(st: Stats, e: Entry): Stats
  {
    Stats(
      st.workingDays + (if e.status == Working then 1 else 0),
      st.leaveDays + (if e.status == Leave then 1 else 0),
      st.holidayDays + (if e.status == Holiday then 1 else 0),
      st.totalHours + HoursOrZero(e.hoursWorked))
  }

  lemma {:induction false} FilterAppend(data: seq<Entry>, e: Entry, s: Status)
    ensures |Filter(data + [e], s)| == |Filter(data, s)| + (if e.status == s then 1 else 0)
    decreases |data|
  {
    if |data| == 0 {
      assert data + [e] == [e];
    } else {
      assert (data + [e])[1..] == data[1..] + [e];
      FilterAppend(data[1..], e, s);
    }
  }

  /** Appending a record adds it to its status count and its hours to the total. */
  lemma StatsAppend(data: seq<Entry>, e: Entry)
    ensures ComputeStats(data + [e]) == Tally(ComputeStats(data), e)
  {
    FilterAppend(data, e, Working);
    FilterAppend(data, e, Leave);
    FilterAppend(data, e, Holiday);
    assert (data + [e])[..|data|] == data;
  }

  /** Saving a record for a new date adds it to its status count and its hours to the total. */
  lemma StatsAfterNewDate(data: seq<Entry>, e: Entry)
    requires forall k :: 0 <= k < |data| ==> data[k].date != e.date
    ensures ComputeStats(Upsert(data, e)) == Tally(ComputeStats(data), e)
  {
    UpsertAppends(data, e);
    StatsAppend(data, e);
  }

  // ---------------------------------------------------------------------------
  // The store
  // ---------------------------------------------------------------------------

  class AttendanceStore {
    /** The web app address; the empty string means "not configured". */
    const webAppUrl: string
    /** The storage slot; None when nothing has been stored yet. */
    var slot: Option<seq<Entry>>
    /** Everything the store wrote or posted, oldest first. */
    var effects: seq<Effect>

    constructor (url: string, stored: Option<seq<Entry>>)
      ensures webAppUrl == url && slot == stored && effects == []
    {
      webAppUrl := url;
      slot := stored;
      effects := [];
    }

    /** The stored list; the empty list when nothing is stored. */
    function GetAttendance(): (data: seq<Entry>)
      reads this
      ensures slot.None? ==> data == []
      ensures slot.Some? ==> data == slot.value
    {
      match slot
      case None => []
      case Some(d) => d
    }

    /** The statistics of the stored list. */
    function GetStats(): (st: Stats)
      reads this
      ensures st.workingDays + st.leaveDays + st.holidayDays == |GetAttendance()|
      ensures slot.None? ==> st == Stats(0, 0, 0, 0)
    {
      ComputeStats(GetAttendance())
    }

    /** Saves a record: upserts it into the stored list, writes the whole list
        back to the slot, and only then posts the record (with the freshly
        generated id) to the web app when one is configured. */
    method SaveAttendance(draft: Draft, freshId: string, send: SendOutcome) returns (result: SyncResult)
      modifies this
      ensures slot == Some(Upsert(old(GetAttendance()), WithId(draft, freshId)))
      ensures effects == old(effects) + [StorageWrite(StorageKey, slot.value)]
                         + (if webAppUrl != "" then [RemotePost(webAppUrl, WithId(draft, freshId))] else [])
      ensures result == SyncOutcome(webAppUrl != "", send)
      ensures UniqueDates(old(GetAttendance())) ==> UniqueDates(GetAttendance())
    {
      var current := GetAttendance();
      ghost var before := current;
      var newEntry := WithId(draft, freshId);
      var index := FindIndexByDate(current, draft.date);
      if index != -1 {
        current := current[index := newEntry.(id := current[index].id)];
      } else {
        current := current + [newEntry];
      }
      slot := Some(current);
      effects := effects + [StorageWrite(StorageKey, current)];
      if UniqueDates(before) {
        UpsertKeepsUniqueDates(before, newEntry);
      }
      if webAppUrl != "" {
        effects := effects + [RemotePost(webAppUrl, newEntry)];
        match send
        case Completed =>
          result := SyncResult(true, None);
        case Threw =>
          result := SyncResult(false, Some(ConnectionErrorText));
      } else {
        result := SyncResult(true, None);
      }
    }
  }

  /** `findIndex` by date: the first index holding `date`, or -1. */
  method FindIndexByDate(data: seq<Entry>, date: string) returns (index: int)
    ensures index == FirstIndexOfDate(data, date)
  {
    index := 0;
    while index < |data| && data[index].date != date
      invariant 0 <= index <= |data|
      invariant forall k :: 0 <= k < index ==> data[k].date != date
    {
      index := index + 1;
    }
    if index == |data| {
      index := -1;
    }
  }
}
