/** The attendance report: CSV export of the stored list, the calendar's
    per-day lookup and colouring, and the newest-first history order. */
module AttendanceReport {
  import opened Types
  import opened Text
  import opened AttendanceService

  // ---------------------------------------------------------------------------
  // CSV export
  // ---------------------------------------------------------------------------

  const CsvHeader: seq<string> := ["Date", "Status", "Place of Visit", "Purpose", "Hours Worked"]

  /** `s.replace(/"/g, '""')`: every double quote doubled. */
  function EscapeQuotes(s: string): (r: string)
    ensures |r| >= |s|
    decreases |s|
  {
    if |s| == 0 then ""
    else (if s[0] == '"' then "\"\"" else [s[0]]) + EscapeQuotes(s[1..])
  }

  /** Escaping adds exactly one character per double quote. */
  lemma {:induction false} EscapeQuotesLength(s: string)
    ensures |EscapeQuotes(s)| == |s| + multiset(s)['"']
    decreases |s|
  {
    if |s| > 0 {
      EscapeQuotesLength(s[1..]);
      assert s == [s[0]] + s[1..];
    }
  }

  /** Every double quote in `r` is one of an adjacent pair. */
  predicate QuotesPaired(r: string)
    decreases |r|
  {
    if |r| == 0 then true
    else if r[0] == '"' then |r| >= 2 && r[1] == '"' && QuotesPaired(r[2..])
    else QuotesPaired(r[1..])
  }

  /** Collapses each doubled quote back to one. */
  function UnescapeQuotes(r: string): string
    decreases |r|
  {
    if |r| == 0 then ""
    else if |r| >= 2 && r[0] == '"' && r[1] == '"' then "\"" + UnescapeQuotes(r[2..])
    else [r[0]] + UnescapeQuotes(r[1..])
  }

  /** Escaping leaves only doubled quotes. */
  lemma {:induction false} EscapeQuotesPaired(s: string)
    ensures QuotesPaired(EscapeQuotes(s))
    decreases |s|
  {
    if |s| > 0 {
      EscapeQuotesPaired(s[1..]);
      var rest := EscapeQuotes(s[1..]);
      if s[0] == '"' {
        assert EscapeQuotes(s) == "\"\"" + rest;
        assert ("\"\"" + rest)[2..] == rest;
      } else {
        assert EscapeQuotes(s) == [s[0]] + rest;
        assert ([s[0]] + rest)[1..] == rest;
      }
    }
  }

  /** Escaping leaves only doubled quotes, and un-doubling gives the text back. */
  lemma {:induction false} EscapeQuotesRoundTrip(s: string)
    ensures QuotesPaired(EscapeQuotes(s))
    ensures UnescapeQuotes(EscapeQuotes(s)) == s
    decreases |s|
  {
    EscapeQuotesPaired(s);
    if |s| > 0 {
      EscapeQuotesRoundTrip(s[1..]);
      var rest := EscapeQuotes(s[1..]);
      if s[0] == '"' {
        assert EscapeQuotes(s) == "\"\"" + rest;
        assert ("\"\"" + rest)[2..] == rest;
        assert UnescapeQuotes(EscapeQuotes(s)) == "\"" + s[1..];
      } else {
        assert EscapeQuotes(s) == [s[0]] + rest;
        assert ([s[0]] + rest)[1..] == rest;
        assert UnescapeQuotes(EscapeQuotes(s)) == [s[0]] + s[1..];
      }
      assert [s[0]] + s[1..] == s;
    }
  }

  /** Reads a quoted field back: the surrounding quotes stripped and the
      doubled quotes collapsed; None when `f` is not a well-formed quoted field. */
  function UnquoteField(f: string): Option<string>
  {
    if |f| >= 2 && f[0] == '"' && f[|f| - 1] == '"' && QuotesPaired(f[1..|f| - 1])
    then Some(UnescapeQuotes(f[1..|f| - 1]))
    else None
  }

  function OrEmpty(s: Option<string>): string
  {
    match s
    case None => ""
    case Some(t) => t
  }

  /** The purpose column: always quoted, internal quotes doubled, an absent
      purpose giving `""`. */
  function PurposeField(purpose: Option<string>): (f: string)
    ensures |f| >= 2 && f[0] == '"' && f[|f| - 1] == '"'
    ensures UnquoteField(f) == Some(OrEmpty(purpose))
  {
    var inner := EscapeQuotes(OrEmpty(purpose));
    EscapeQuotesRoundTrip(OrEmpty(purpose));
    assert ("\"" + inner + "\"")[1..|inner| + 1] == inner;
    "\"" + inner + "\""
  }

  /** The fields of one row: date, status code, place (unquoted, empty when
      absent), quoted purpose, hours (0 when absent or zero). */
  function RowFields(e: Entry): (fields: seq<string>)
    ensures |fields| == 5 && fields[0] == e.date && fields[2] == OrEmpty(e.placeVisit)
    ensures ParseStatus(fields[1]) == Some(e.status)
    ensures UnquoteField(fields[3]) == Some(OrEmpty(e.purposeVisit))
    ensures ParseInt(fields[4]) == Some(HoursOrZero(e.hoursWorked))
  {
    IntToStringRoundTrip(HoursOrZero(e.hoursWorked));
    ParseStatusCode(e.status);
    [e.date, StatusCode(e.status), OrEmpty(e.placeVisit), PurposeField(e.purposeVisit),
     IntToString(HoursOrZero(e.hoursWorked))]
  }

  /** One CSV line: the fields joined by commas; it starts with the date. */
  function RowText(e: Entry): (r: string)
    ensures |r| > |e.date| && r[..|e.date|] == e.date && r[|e.date|] == ','
  {
    var fields := RowFields(e);
    assert Join(fields, ',') == fields[0] + [','] + Join(fields[1..], ',');
    Join(fields, ',')
  }

  /** One line per record, in list order. */
  function Rows(entries: seq<Entry>): (rows: seq<string>)
    ensures |rows| == |entries|
  {
    seq(|entries|, i requires 0 <= i < |entries| => RowText(entries[i]))
  }

  /** The CSV text of the export; None (nothing exported) for an empty list. */
  function ExportCsv(entries: seq<Entry>): (r: Option<string>)
    ensures r.None? <==> entries == []
  {
    if |entries| == 0 then None
    else Some(Join([Join(CsvHeader, ',')] + Rows(entries), '\n'))
  }

  /** The export is the header line followed by one line per record, in list
      order: exporting one more record appends a newline and its row. */
  lemma ExportCsvSnoc(entries: seq<Entry>, e: Entry)
    requires entries != []
    ensures ExportCsv(entries + [e]) == Some(ExportCsv(entries).value + "\n" + RowText(e))
  {
    var lines := [Join(CsvHeader, ',')] + Rows(entries);
    assert [Join(CsvHeader, ',')] + Rows(entries + [e]) == lines + [RowText(e)];
    JoinSnoc(lines, RowText(e), '\n');
  }

  /** The export of a single record is the header line, a newline and its row. */
  lemma ExportCsvSingle(e: Entry)
    ensures ExportCsv([e]) == Some(Join(CsvHeader, ',') + "\n" + RowText(e))
  {
    var rows := Rows([e]);
    assert rows[0] == RowText(e);
    assert rows == [RowText(e)];
    var lines := [Join(CsvHeader, ',')] + rows;
    assert lines[1..] == [RowText(e)];
    assert Join(lines, '\n') == lines[0] + ['\n'] + Join(lines[1..], '\n');
  }

  /** A place holding one comma, such as the form's own example
      "Client HQ, Site B", splits into two columns: the row then has six
      comma-separated parts, and the purpose sits under the fifth header. */
  lemma PlaceCommaShiftsColumns(e: Entry, a: string, b: string)
    requires e.placeVisit == Some(a + "," + b)
    requires ',' !in e.date && ',' !in a && ',' !in b && ',' !in OrEmpty(e.purposeVisit)
    ensures var parts := Split(RowText(e), ',');
            |parts| == 6 && parts[2] == a && parts[3] == b && parts[4] == RowFields(e)[3]
  {
    var f := RowFields(e);
    JoinSplitsPart(f, 2, a, b, ',');
    var g := f[..2] + [a, b] + f[3..];
    assert ',' !in StatusCode(e.status);
    EscapeQuotesNoNewChars(OrEmpty(e.purposeVisit), ',');
    assert f[3] == "\"" + EscapeQuotes(OrEmpty(e.purposeVisit)) + "\"";
    assert g == [f[0], f[1], a, b, f[3], f[4]];
    SplitJoin(g, ',');
  }

  /** A row splits back on commas into its five fields when no free-text
      field holds a comma. The split here ignores quotes, as a plain
      `split(",")` does, so it needs a comma-free purpose too; the place column
      is written without quoting in any case. */
  lemma RowSplitsIntoFields(e: Entry)
    requires ',' !in e.date && ',' !in OrEmpty(e.placeVisit) && ',' !in OrEmpty(e.purposeVisit)
    ensures Split(RowText(e), ',') == RowFields(e)
  {
    var fields := RowFields(e);
    assert ',' !in StatusCode(e.status);
    var p := OrEmpty(e.purposeVisit);
    EscapeQuotesNoNewChars(p, ',');
    assert fields[3] == "\"" + EscapeQuotes(p) + "\"";
    SplitJoin(fields, ',');
  }

  lemma {:induction false} EscapeQuotesNoNewChars(s: string, c: char)
    requires c != '"' && c !in s
    ensures c !in EscapeQuotes(s)
    decreases |s|
  {
    if |s| > 0 {
      EscapeQuotesNoNewChars(s[1..], c);
    }
  }

  /** No newline in a record's free text. */
  predicate SingleLine(e: Entry)
  {
    '\n' !in e.date && '\n' !in OrEmpty(e.placeVisit) && '\n' !in OrEmpty(e.purposeVisit)
  }

  /** With no newline in any record's text, the export splits into the header
      line and the rows, one per record. */
  lemma ExportCsvLines(entries: seq<Entry>)
    requires entries != []
    requires forall k :: 0 <= k < |entries| ==> SingleLine(entries[k])
    ensures Split(ExportCsv(entries).value, '\n') == [Join(CsvHeader, ',')] + Rows(entries)
  {
    var lines := [Join(CsvHeader, ',')] + Rows(entries);
    assert ExportCsv(entries).value == Join(lines, '\n');
    HeaderIsSingleLine();
    LinesAreSingle(Join(CsvHeader, ','), entries);
    SplitJoin(lines, '\n');
  }

  lemma LinesAreSingle(header: string, entries: seq<Entry>)
    requires '\n' !in header
    requires forall k :: 0 <= k < |entries| ==> SingleLine(entries[k])
    ensures forall k :: 0 <= k < |entries| + 1 ==> '\n' !in ([header] + Rows(entries))[k]
  {
    var lines := [header] + Rows(entries);
    forall k | 0 <= k < |lines|
      ensures '\n' !in lines[k]
    {
      if k > 0 {
        RowIsLineFree(entries, k - 1);
        assert lines[k] == Rows(entries)[k - 1];
      }
    }
  }

  lemma RowIsLineFree(entries: seq<Entry>, i: int)
    requires 0 <= i < |entries| && SingleLine(entries[i])
    ensures '\n' !in Rows(entries)[i]
  {
    RowHasNoNewline(entries[i]);
  }

  lemma HeaderIsSingleLine()
    ensures '\n' !in Join(CsvHeader, ',')
  {
    JoinKeepsOut(CsvHeader, ',', '\n');
  }

  lemma RowHasNoNewline(e: Entry)
    requires SingleLine(e)
    ensures '\n' !in RowText(e)
  {
    var fields := RowFields(e);
    EscapeQuotesNoNewChars(OrEmpty(e.purposeVisit), '\n');
    assert fields[3] == "\"" + EscapeQuotes(OrEmpty(e.purposeVisit)) + "\"";
    assert '\n' !in StatusCode(e.status);
    forall k | 0 <= k < 5 ensures '\n' !in fields[k] { }
    JoinKeepsOut(fields, ',', '\n');
  }

  lemma {:induction false} JoinKeepsOut(parts: seq<string>, sep: char, c: char)
    requires c != sep
    requires forall k :: 0 <= k < |parts| ==> c !in parts[k]
    ensures c !in Join(parts, sep)
    decreases |parts|
  {
    if |parts| > 1 {
      JoinKeepsOut(parts[1..], sep, c);
    }
  }

  // ---------------------------------------------------------------------------
  // Calendar lookup and colouring
  // ---------------------------------------------------------------------------

  /** `entries.find(...)`: the first record for `day`, if any. */
  function StatusForDay(entries: seq<Entry>, day: string): (r: Option<Entry>)
    ensures r.None? <==> forall k :: 0 <= k < |entries| ==> entries[k].date != day
    ensures r.Some? ==> exists i :: 0 <= i < |entries| && entries[i] == r.value && r.value.date == day
                                    && forall k :: 0 <= k < i ==> entries[k].date != day
  {
    var i := FirstIndexOfDate(entries, day);
    if i == -1 then None else Some(entries[i])
  }

  datatype DayClass = WorkingDay | OffDay | Unmarked

  /** How a calendar day is coloured from its record. */
  function ClassifyDay(entry: Option<Entry>): (c: DayClass)
    ensures c == WorkingDay <==> entry.Some? && entry.value.status == Working
    ensures c == OffDay <==> entry.Some? && (entry.value.status == Leave || entry.value.status == Holiday)
    ensures c == Unmarked <==> entry.None?
  {
    match entry
    case None => Unmarked
    case Some(e) =>
      match e.status
      case Working => WorkingDay
      case Leave => OffDay
      case Holiday => OffDay
  }

  // ---------------------------------------------------------------------------
  // History order
  // ---------------------------------------------------------------------------

  /** A key built from a year and two two-digit parts decodes back into them. */
  lemma KeyDecodes(y: nat, m: nat, d: nat)
    requires m < 100 && d < 100
    ensures var k := y * 10000 + m * 100 + d;
            k / 10000 == y && k / 100 % 100 == m && k % 100 == d
  {
    var k := y * 10000 + m * 100 + d;
    assert k == (y * 100 + m) * 100 + d;
    assert k / 100 == y * 100 + m;
    assert k == y * 10000 + (m * 100 + d) && m * 100 + d < 10000;
  }

  /** An order-preserving stand-in for the timestamp of a yyyy-MM-dd key
      (yyyy * 10000 + MM * 100 + dd); -1 for a malformed key. */
  function DateKey(date: string): (k: int)
    ensures k == -1 <==> !IsIsoDate(date)
    ensures IsIsoDate(date) ==>
      && AllDigits(date[0..4]) && AllDigits(date[5..7]) && AllDigits(date[8..10])
      && k / 10000 == DigitsValue(date[0..4])
      && k / 100 % 100 == DigitsValue(date[5..7])
      && k % 100 == DigitsValue(date[8..10])
  {
    if IsIsoDate(date) then
      assert AllDigits(date[0..4]) && AllDigits(date[5..7]) && AllDigits(date[8..10]);
      TwoDigitsBelow100(date[5..7]);
      TwoDigitsBelow100(date[8..10]);
      KeyDecodes(DigitsValue(date[0..4]), DigitsValue(date[5..7]), DigitsValue(date[8..10]));
      DigitsValue(date[0..4]) * 10000 + DigitsValue(date[5..7]) * 100 + DigitsValue(date[8..10])
    else -1
  }

  lemma {:induction false} DigitsValueInjective(s: string, t: string)
    requires |s| == |t| && AllDigits(s) && AllDigits(t) && DigitsValue(s) == DigitsValue(t)
    ensures s == t
    decreases |s|
  {
    if |s| > 0 {
      var n := |s|;
      var x, y := DigitsValue(s[..n - 1]), DigitsValue(t[..n - 1]);
      var a, b := DigitValue(s[n - 1]), DigitValue(t[n - 1]);
      assert x * 10 + a == y * 10 + b;
      assert s[..n - 1] == t[..n - 1] by {
        DigitsValueInjective(s[..n - 1], t[..n - 1]);
      }
      assert s[n - 1] == t[n - 1];
      assert s == s[..n - 1] + [s[n - 1]] && t == t[..n - 1] + [t[n - 1]];
    }
  }

  lemma TwoDigitsBelow100(s: string)
    requires |s| == 2 && AllDigits(s)
    ensures DigitsValue(s) < 100
  {
    assert s[..1][..0] == [];
    assert DigitsValue(s[..1]) == DigitValue(s[0]);
  }

  lemma KeyParts(y1: nat, m1: nat, d1: nat, y2: nat, m2: nat, d2: nat)
    requires m1 < 100 && d1 < 100 && m2 < 100 && d2 < 100
    requires y1 * 10000 + m1 * 100 + d1 == y2 * 10000 + m2 * 100 + d2
    ensures y1 == y2 && m1 == m2 && d1 == d2
  {
  }

  /** The year, month and day written in a yyyy-MM-dd key. */
  function YearMonthDay(date: string): (ymd: (nat, nat, nat))
    requires IsIsoDate(date)
    ensures ymd.1 < 100 && ymd.2 < 100
    ensures DateKey(date) == ymd.0 * 10000 + ymd.1 * 100 + ymd.2
  {
    assert AllDigits(date[0..4]) && AllDigits(date[5..7]) && AllDigits(date[8..10]);
    TwoDigitsBelow100(date[5..7]);
    TwoDigitsBelow100(date[8..10]);
    (DigitsValue(date[0..4]), DigitsValue(date[5..7]), DigitsValue(date[8..10]))
  }

  /** Calendar order on (year, month, day): lexicographic. */
  predicate EarlierDay(p: (nat, nat, nat), q: (nat, nat, nat))
  {
    p.0 < q.0 || (p.0 == q.0 && (p.1 < q.1 || (p.1 == q.1 && p.2 < q.2)))
  }

  lemma KeyOrder(p: (nat, nat, nat), q: (nat, nat, nat))
    requires p.1 < 100 && p.2 < 100 && q.1 < 100 && q.2 < 100
    ensures p.0 * 10000 + p.1 * 100 + p.2 < q.0 * 10000 + q.1 * 100 + q.2 <==> EarlierDay(p, q)
  {
    if p.0 < q.0 {
      assert p.0 * 10000 + 10000 <= q.0 * 10000;
    } else if q.0 < p.0 {
      assert q.0 * 10000 + 10000 <= p.0 * 10000;
    }
  }

  /** For yyyy-MM-dd keys the sort key orders days as the calendar does: one
      key is smaller exactly when its (year, month, day) comes first. */
  lemma DateKeyOrder(a: string, b: string)
    requires IsIsoDate(a) && IsIsoDate(b)
    ensures DateKey(a) < DateKey(b) <==> EarlierDay(YearMonthDay(a), YearMonthDay(b))
  {
    KeyOrder(YearMonthDay(a), YearMonthDay(b));
  }

  /** For well-formed keys the sort key identifies the day: two yyyy-MM-dd
      keys have the same DateKey exactly when they are the same string, so
      the history order and the store's date matching agree. */
  lemma DateKeyInjective(a: string, b: string)
    requires IsIsoDate(a) && IsIsoDate(b)
    ensures DateKey(a) == DateKey(b) <==> a == b
  {
    if DateKey(a) == DateKey(b) {
      assert AllDigits(a[0..4]) && AllDigits(a[5..7]) && AllDigits(a[8..10]);
      assert AllDigits(b[0..4]) && AllDigits(b[5..7]) && AllDigits(b[8..10]);
      var y1, m1, d1 := DigitsValue(a[0..4]), DigitsValue(a[5..7]), DigitsValue(a[8..10]);
      var y2, m2, d2 := DigitsValue(b[0..4]), DigitsValue(b[5..7]), DigitsValue(b[8..10]);
      TwoDigitsBelow100(a[5..7]);
      TwoDigitsBelow100(a[8..10]);
      TwoDigitsBelow100(b[5..7]);
      TwoDigitsBelow100(b[8..10]);
      KeyParts(y1, m1, d1, y2, m2, d2);
      DigitsValueInjective(a[0..4], b[0..4]);
      DigitsValueInjective(a[5..7], b[5..7]);
      DigitsValueInjective(a[8..10], b[8..10]);
      assert a == a[0..4] + [a[4]] + a[5..7] + [a[7]] + a[8..10];
      assert b == b[0..4] + [b[4]] + b[5..7] + [b[7]] + b[8..10];
    }
  }

  /** Newest first: dates never increase along the list. */
  ghost predicate NewestFirst(s: seq<Entry>)
  {
    SortedByKeyDescending(s, EntryDateKey)
  }

  function EntryDateKey(e: Entry): int
  {
    DateKey(e.date)
  }

  ghost predicate SortedByKeyDescending(s: seq<Entry>, key: Entry -> int)
  {
    forall p, q :: 0 <= p < q < |s| ==> key(s[q]) <= key(s[p])
  }

  /** `a.sort((x, y) => key(y) - key(x))`: sorts in place so that keys never
      increase (an insertion sort). */
  method SortByKeyDescending(a: array<Entry>, key: Entry -> int)
    modifies a
    ensures SortedByKeyDescending(a[..], key)
    ensures multiset(a[..]) == old(multiset(a[..]))
  {
    var i := 0;
    while i < a.Length
      invariant 0 <= i <= a.Length
      invariant forall p, q :: 0 <= p < q < i ==> key(a[q]) <= key(a[p])
      invariant multiset(a[..]) == old(multiset(a[..]))
    {
      var j := i;
      while j > 0 && key(a[j - 1]) < key(a[j])
        invariant 0 <= j <= i
        invariant forall p, q :: 0 <= p < q <= i && p != j && q != j ==> key(a[q]) <= key(a[p])
        invariant forall q :: j < q <= i ==> key(a[q]) < key(a[j])
        invariant multiset(a[..]) == old(multiset(a[..]))
      {
        Swap(a, j - 1, j);
        j := j - 1;
      }
      i := i + 1;
    }
  }

  method Swap(a: array<Entry>, i: nat, j: nat)
    requires i < j < a.Length
    modifies a
    ensures a[i] == old(a[j]) && a[j] == old(a[i])
    ensures forall k :: 0 <= k < a.Length && k != i && k != j ==> a[k] == old(a[k])
    ensures multiset(a[..]) == old(multiset(a[..]))
  {
    a[i], a[j] := a[j], a[i];
  }

  /** The history list's sort: newest date first. */
  method SortNewestFirst(a: array<Entry>)
    modifies a
    ensures NewestFirst(a[..])
    ensures multiset(a[..]) == old(multiset(a[..]))
  {
    SortByKeyDescending(a, EntryDateKey);
  }

  /** The report's render sorts the shared `entries` array in place for the
      history table, and the export button then reads that same array: the
      exported rows come out newest first, not in stored order. */
  method RenderThenExport(a: array<Entry>) returns (csv: Option<string>)
    modifies a
    ensures NewestFirst(a[..]) && multiset(a[..]) == old(multiset(a[..]))
    ensures csv == ExportCsv(a[..])
    ensures csv.None? <==> a.Length == 0
  {
    SortNewestFirst(a);
    csv := ExportCsv(a[..]);
  }
}
