/**
 * The dashboard's history list: how a stored row becomes a displayed log, and the CSV export
 * (local-day filter, nine comma-joined columns, and the download's file name).
 */
module HistoryView {
  import opened Wrappers
  import opened Text
  import opened CivilTime
  import opened LedgerStore

  /** One displayed history entry. `timestamp` is the locale rendering of `rawDate`. */
  datatype HistoryLog = HistoryLog(
    timestamp: string,
    rawDate: int,
    kind: Field<string>,
    name: string,
    idNo: string,
    email: string,
    address: string,
    amount: int,
    tokenIds: string,
    txHash: string)

  /** The reload path's mapping of one API row; `format` is the browser's `toLocaleString`. */
  function MapRow(r: Row, format: int -> string): (h: HistoryLog)
    ensures h.rawDate == r.createdAt && h.timestamp == format(r.createdAt) && h.kind == r.data.kind
    ensures r.data.name.IsNullish() ==> h.name == "-"
    ensures r.data.name.Val? ==> h.name == r.data.name.value
    ensures r.data.idNo.IsNullish() ==> h.idNo == "-"
    ensures r.data.idNo.Val? ==> h.idNo == r.data.idNo.value
    ensures r.data.email.IsNullish() ==> h.email == "-"
    ensures r.data.email.Val? ==> h.email == r.data.email.value
    ensures r.data.recipientAddress.IsNullish() ==> h.address == "-"
    ensures r.data.recipientAddress.Val? ==> h.address == r.data.recipientAddress.value
    ensures r.data.amount.IsNullish() ==> h.amount == 0
    ensures r.data.amount.Val? ==> h.amount == r.data.amount.value
    ensures r.data.tokenIds.IsNullish() ==> h.tokenIds == ""
    ensures r.data.tokenIds.Val? ==> h.tokenIds == r.data.tokenIds.value
    ensures r.data.txHash.IsNullish() ==> h.txHash == ""
    ensures r.data.txHash.Val? ==> h.txHash == r.data.txHash.value
  {
    HistoryLog(
      timestamp := format(r.createdAt),
      rawDate := r.createdAt,
      kind := r.data.kind,
      name := r.data.name.Or("-"),
      idNo := r.data.idNo.Or("-"),
      email := r.data.email.Or("-"),
      address := r.data.recipientAddress.Or("-"),
      amount := r.data.amount.Or(0),
      tokenIds := r.data.tokenIds.Or(""),
      txHash := r.data.txHash.Or(""))
  }

  /** `(json.data ?? []).map(...)`: one log per row, in the order the server sent them. */
  function MapRows(rows: seq<Row>, format: int -> string): (logs: seq<HistoryLog>)
    ensures |logs| == |rows|
    ensures forall i :: 0 <= i < |rows| ==> logs[i] == MapRow(rows[i], format)
  {
    seq(|rows|, i requires 0 <= i < |rows| => MapRow(rows[i], format))
  }

  /** Entries ordered by `rawDate`, latest first. */
  predicate LatestFirst(logs: seq<HistoryLog>) {
    forall i, j :: 0 <= i < j < |logs| ==> logs[i].rawDate >= logs[j].rawDate
  }

  /** Rows that arrive newest first are displayed newest first. */
  lemma MappedRowsKeepServerOrder(rows: seq<Row>, format: int -> string)
    requires NewestFirst(rows)
    ensures LatestFirst(MapRows(rows, format))
  {
  }

  // ---------------------------------------------------------------------------
  // CSV export
  // ---------------------------------------------------------------------------

  const CsvHeader: seq<string> :=
    ["Timestamp", "Type", "Name", "ID NO", "Email", "Wallet Address", "Amount", "Token IDs", "Tx Hash"]

  /** An absent or null `type` renders as the empty string in `Array.prototype.join`. */
  function KindText(kind: Field<string>): string {
    match kind
    case Val(s) => s
    case _ => ""
  }

  /** The nine cells of one log's line; only the token ids are quoted, nothing is escaped. */
  function CsvFields(h: HistoryLog): (cells: seq<string>)
    ensures |cells| == |CsvHeader|
  {
    [h.timestamp, KindText(h.kind), h.name, h.idNo, h.email, h.address,
     IntToDecimal(h.amount), "\"" + h.tokenIds + "\"", h.txHash]
  }

  function CsvLine(cells: seq<string>): string {
    Join(cells, ",")
  }

  /** One line per log, in the given order. */
  function LogLines(logs: seq<HistoryLog>): (lines: seq<string>)
    ensures |lines| == |logs|
    ensures forall i :: 0 <= i < |logs| ==> lines[i] == CsvLine(CsvFields(logs[i]))
  {
    seq(|logs|, i requires 0 <= i < |logs| => CsvLine(CsvFields(logs[i])))
  }

  /** The lines of the file: the header, then one line per log in the given order. */
  function CsvLines(logs: seq<HistoryLog>): seq<string> {
    [CsvLine(CsvHeader)] + LogLines(logs)
  }

  /**
   * One side of the export window. An empty date sets no bound, and neither does one the engine
   * cannot parse (comparisons with an invalid date are false). Otherwise `setHours` moves the
   * parsed instant to the start or the end of its local day.
   */
  function LowerBound(startDate: string, parse: string -> Option<int>, offsetMs: int): Option<int> {
    if startDate == "" then None
    else
      match parse(startDate)
      case None => None
      case Some(t) => Some(LocalDayStart(t, offsetMs))
  }

  function UpperBound(endDate: string, parse: string -> Option<int>, offsetMs: int): Option<int> {
    if endDate == "" then None
    else
      match parse(endDate)
      case None => None
      case Some(t) => Some(LocalDayEnd(t, offsetMs))
  }

  predicate InWindow(h: HistoryLog, lower: Option<int>, upper: Option<int>) {
    (lower.None? || h.rawDate >= lower.value) && (upper.None? || h.rawDate <= upper.value)
  }

  /** `history.filter(...)`: the logs inside the window, in buffer order. */
  function Filter(logs: seq<HistoryLog>, lower: Option<int>, upper: Option<int>): seq<HistoryLog> {
    if logs == [] then []
    else (if InWindow(logs[0], lower, upper) then [logs[0]] else []) + Filter(logs[1..], lower, upper)
  }

  /** The filter keeps exactly the logs inside the window. */
  lemma {:induction false} FilterMembers(logs: seq<HistoryLog>, lower: Option<int>, upper: Option<int>)
    ensures forall h :: h in Filter(logs, lower, upper) <==> h in logs && InWindow(h, lower, upper)
    decreases |logs|
  {
    if logs != [] {
      FilterMembers(logs[1..], lower, upper);
      assert logs == [logs[0]] + logs[1..];
    }
  }

  /** The filter keeps buffer order: filtering a concatenation concatenates the filtered parts. */
  lemma {:induction false} FilterOfConcat(a: seq<HistoryLog>, b: seq<HistoryLog>, lower: Option<int>, upper: Option<int>)
    ensures Filter(a + b, lower, upper) == Filter(a, lower, upper) + Filter(b, lower, upper)
    decreases |a|
  {
    if a == [] {
      assert a + b == b;
    } else {
      var ab := a + b;
      assert ab[1..] == a[1..] + b;
      FilterOfConcat(a[1..], b, lower, upper);
      var head := if InWindow(a[0], lower, upper) then [a[0]] else [];
      assert head + (Filter(a[1..], lower, upper) + Filter(b, lower, upper))
          == (head + Filter(a[1..], lower, upper)) + Filter(b, lower, upper);
    }
  }

  /** A latest-first buffer stays latest first when filtered. */
  lemma {:induction false} FilterKeepsLatestFirst(logs: seq<HistoryLog>, lower: Option<int>, upper: Option<int>)
    requires LatestFirst(logs)
    ensures LatestFirst(Filter(logs, lower, upper))
    decreases |logs|
  {
    if logs != [] {
      FilterKeepsLatestFirst(logs[1..], lower, upper);
      FilterMembers(logs[1..], lower, upper);
      var rest := Filter(logs[1..], lower, upper);
      var head := if InWindow(logs[0], lower, upper) then [logs[0]] else [];
      var kept := head + rest;
      assert kept == Filter(logs, lower, upper);
      forall i, j | 0 <= i < j < |kept| ensures kept[i].rawDate >= kept[j].rawDate {
        if i < |head| {
          var h := rest[j - |head|];
          assert h in logs[1..];
          var k :| 0 <= k < |logs[1..]| && logs[1..][k] == h;
          assert logs[k + 1] == h;
        } else {
          assert kept[i] == rest[i - |head|] && kept[j] == rest[j - |head|];
        }
      }
    }
  }

  /** `nft_history.csv`, or with `_<start>_to_<end>` spliced in when either date is set. */
  function FileName(startDate: string, endDate: string): string {
    if startDate == "" && endDate == "" then "nft_history.csv"
    else "nft_history_" + (if startDate == "" then "start" else startDate)
         + "_to_" + (if endDate == "" then "now" else endDate) + ".csv"
  }

  lemma FileNameRule(startDate: string, endDate: string)
    ensures FileName(startDate, endDate) == "nft_history.csv" <==> startDate == "" && endDate == ""
    ensures startDate != "" ==> FileName(startDate, endDate)[..12 + |startDate|] == "nft_history_" + startDate
    ensures startDate == "" && endDate != "" ==> FileName(startDate, endDate)[..21] == "nft_history_start_to_"
    ensures var n := FileName(startDate, endDate); |n| >= 4 && n[|n| - 4..] == ".csv"
    ensures var n, tail := FileName(startDate, endDate), "_to_" + (if endDate == "" then "now" else endDate) + ".csv";
      (startDate != "" || endDate != "") ==> |n| > |tail| && n[|n| - |tail|..] == tail
  {
    if !(startDate == "" && endDate == "") {
      var n := FileName(startDate, endDate);
      assert n[11] == '_';
      assert "nft_history.csv"[11] == '.';
    }
  }

  datatype Export = NoHistory | NothingInRange | File(name: string, content: string)

  /** `downloadCSV`: the file's name and content, or the reason none is produced. */
  function ExportCsv(logs: seq<HistoryLog>, startDate: string, endDate: string,
                     parse: string -> Option<int>, offsetMs: int): Export
  {
    if logs == [] then NoHistory
    else
      var kept := Filter(logs, LowerBound(startDate, parse, offsetMs), UpperBound(endDate, parse, offsetMs));
      if kept == [] then NothingInRange
      else File(FileName(startDate, endDate), Join(CsvLines(kept), "\n"))
  }

  /** A log whose cells hold no comma and no newline survives the round trip through the file. */
  predicate PlainLog(h: HistoryLog) {
    forall i :: 0 <= i < |CsvFields(h)| ==> ',' !in CsvFields(h)[i] && '\n' !in CsvFields(h)[i]
  }

  /** The amount and the quotes never introduce a separator: only the free-text columns can. */
  lemma PlainLogText(h: HistoryLog)
    requires forall s :: (s in [h.timestamp, KindText(h.kind), h.name, h.idNo, h.email, h.address, h.tokenIds, h.txHash]
                          ==> ',' !in s && '\n' !in s)
    ensures PlainLog(h)
  {
    var a := IntToDecimal(h.amount);
    assert forall k :: 0 <= k < |a| ==> a[k] != ',' && a[k] != '\n' by {
      assert forall k :: 0 < k < |a| ==> IsDigit(a[k]);
    }
    var q := "\"" + h.tokenIds + "\"";
    assert forall k :: 0 <= k < |q| ==> q[k] == '"' || q[k] in h.tokenIds;
  }

  /** No file is produced for an empty buffer or an empty window; otherwise exactly one is. */
  lemma ExportOutcomes(logs: seq<HistoryLog>, startDate: string, endDate: string,
                       parse: string -> Option<int>, offsetMs: int)
    ensures ExportCsv(logs, startDate, endDate, parse, offsetMs) == NoHistory <==> logs == []
    ensures ExportCsv(logs, startDate, endDate, parse, offsetMs) == NothingInRange
            <==> logs != [] && forall h :: h in logs ==> !InWindow(h, LowerBound(startDate, parse, offsetMs), UpperBound(endDate, parse, offsetMs))
    ensures ExportCsv(logs, startDate, endDate, parse, offsetMs).File?
            ==> ExportCsv(logs, startDate, endDate, parse, offsetMs).name == FileName(startDate, endDate)
  {
    var kept := Filter(logs, LowerBound(startDate, parse, offsetMs), UpperBound(endDate, parse, offsetMs));
    FilterMembers(logs, LowerBound(startDate, parse, offsetMs), UpperBound(endDate, parse, offsetMs));
    if logs != [] && kept != [] {
      assert kept[0] in kept;
    }
  }

  /** A plain log's line holds no newline and splits at its commas into its nine cells. */
  lemma LineReadsBack(h: HistoryLog)
    requires PlainLog(h)
    ensures '\n' !in CsvLine(CsvFields(h))
    ensures Split(CsvLine(CsvFields(h)), ',') == CsvFields(h)
  {
    JoinAvoids(CsvFields(h), ",", '\n');
    SplitJoin(CsvFields(h), ',');
  }

  /** The header line holds no newline and splits into the nine column titles. */
  lemma HeaderReadsBack()
    ensures '\n' !in CsvLine(CsvHeader)
    ensures Split(CsvLine(CsvHeader), ',') == CsvHeader
  {
    HeaderCellsPlain();
    JoinAvoids(CsvHeader, ",", '\n');
    SplitJoin(CsvHeader, ',');
  }

  lemma HeaderCellsPlain()
    ensures forall i :: 0 <= i < |CsvHeader| ==> ',' !in CsvHeader[i] && '\n' !in CsvHeader[i]
  {
    FirstTitlesPlain();
    MiddleTitlesPlain();
    LastTitlesPlain();
  }

  lemma FirstTitlesPlain()
    ensures ',' !in "Timestamp" && '\n' !in "Timestamp" && ',' !in "Type" && '\n' !in "Type" && ',' !in "Name" && '\n' !in "Name"
  {
    assert ',' !in "Timestamp" && '\n' !in "Timestamp";
    assert ',' !in "Type" && '\n' !in "Type";
    assert ',' !in "Name" && '\n' !in "Name";
  }

  lemma MiddleTitlesPlain()
    ensures ',' !in "ID NO" && '\n' !in "ID NO" && ',' !in "Email" && '\n' !in "Email" && ',' !in "Wallet Address" && '\n' !in "Wallet Address"
  {
    assert ',' !in "ID NO" && '\n' !in "ID NO";
    assert ',' !in "Email" && '\n' !in "Email";
    assert ',' !in "Wallet Address" && '\n' !in "Wallet Address";
  }

  lemma LastTitlesPlain()
    ensures ',' !in "Amount" && '\n' !in "Amount" && ',' !in "Token IDs" && '\n' !in "Token IDs" && ',' !in "Tx Hash" && '\n' !in "Tx Hash"
  {
    assert ',' !in "Amount" && '\n' !in "Amount";
    assert ',' !in "Token IDs" && '\n' !in "Token IDs";
    assert ',' !in "Tx Hash" && '\n' !in "Tx Hash";
  }

  /** The file's content splits at its newlines into the header and one line per log. */
  lemma {:induction false} ContentReadsBack(kept: seq<HistoryLog>)
    requires forall i :: 0 <= i < |kept| ==> PlainLog(kept[i])
    ensures Split(Join(CsvLines(kept), "\n"), '\n') == CsvLines(kept)
  {
    var lines := CsvLines(kept);
    HeaderReadsBack();
    forall i | 0 <= i < |lines| ensures '\n' !in lines[i] {
      if i > 0 {
        LineReadsBack(kept[i - 1]);
      }
    }
    SplitJoin(lines, '\n');
  }

  /**
   * Reading the file back: its lines are the header and one line per kept log in buffer order,
   * and each line splits at the commas into the log's nine cells.
   */
  lemma CsvReadsBack(logs: seq<HistoryLog>, startDate: string, endDate: string,
                     parse: string -> Option<int>, offsetMs: int)
    requires forall h :: h in logs ==> PlainLog(h)
    requires ExportCsv(logs, startDate, endDate, parse, offsetMs).File?
    ensures var kept := Filter(logs, LowerBound(startDate, parse, offsetMs), UpperBound(endDate, parse, offsetMs));
      var lines := Split(ExportCsv(logs, startDate, endDate, parse, offsetMs).content, '\n');
      && lines == CsvLines(kept)
      && Split(lines[0], ',') == CsvHeader
      && forall i :: 0 <= i < |kept| ==> Split(lines[i + 1], ',') == CsvFields(kept[i])
  {
    var kept := Filter(logs, LowerBound(startDate, parse, offsetMs), UpperBound(endDate, parse, offsetMs));
    FilterMembers(logs, LowerBound(startDate, parse, offsetMs), UpperBound(endDate, parse, offsetMs));
    assert forall i :: 0 <= i < |kept| ==> kept[i] in kept;
    ContentReadsBack(kept);
    HeaderReadsBack();
    forall i | 0 <= i < |kept| ensures Split(CsvLines(kept)[i + 1], ',') == CsvFields(kept[i]) {
      LineReadsBack(kept[i]);
    }
  }

  /**
   * In UTC+09:00 the export window for calendar dates S and E is exactly the window the
   * history API filters on: from the first millisecond of S to the last of E.
   */
  lemma ExportWindowMatchesApiAtJst(startDate: string, endDate: string, parse: string -> Option<int>)
    requires ConformingParser(parse)
    requires ParseCalendarDate(startDate).Some? && ParseCalendarDate(endDate).Some?
    ensures LowerBound(startDate, parse, 9 * MsPerHour) == Some(DayStartJst(ParseCalendarDate(startDate).value))
    ensures UpperBound(endDate, parse, 9 * MsPerHour) == Some(DayEndJst(ParseCalendarDate(endDate).value))
  {
    LocalDayAtJstMatchesSuffixBounds(startDate);
    LocalDayAtJstMatchesSuffixBounds(endDate);
  }

  /**
   * West of UTC the window starts at local midnight of the day before the chosen date, because a
   * date-only string denotes UTC midnight, which is still the previous local day there.
   */
  lemma ExportWindowWestOfUtc(startDate: string, parse: string -> Option<int>, offsetMs: int)
    requires ConformingParser(parse)
    requires ParseCalendarDate(startDate).Some?
    requires -MsPerDay < offsetMs < 0
    ensures LowerBound(startDate, parse, offsetMs)
            == Some((DayNumber(ParseCalendarDate(startDate).value) - 1) * MsPerDay - offsetMs)
  {
    LocalDayWestOfUtcIsPreviousDay(startDate, offsetMs);
  }
}
