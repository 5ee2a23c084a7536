/**
 * The audit log viewer (src/components/AuditLog.tsx): the search, severity and action filters
 * and the CSV export of what they leave. The viewer lists its own records, which have a
 * simpler shape than the store's audit entries, so they get their own type here.
 */
module AuditLog {
  import opened Wrappers
  import opened Text
  import opened Seqs
  import opened DataModel

  /** One row of the viewer. */
  datatype LogRow = LogRow(
    id: string,
    timestamp: int,
    action: string,
    actor: string,
    actorRole: string,
    target: string,
    details: string,
    ipAddress: string,
    severity: Severity)

  function SeverityName(s: Severity): string {
    match s
    case Low => "low"
    case Medium => "medium"
    case High => "high"
    case Critical => "critical"
  }

  /** The search box: empty matches everything, otherwise a case-insensitive substring of actor, target or details. */
  predicate MatchesSearch(e: LogRow, term: string) {
    term == "" || ContainsIgnoringCase(e.actor, term) || ContainsIgnoringCase(e.target, term)
    || ContainsIgnoringCase(e.details, term)
  }

  /** The two drop-downs: `None` is "all", otherwise exact equality. */
  predicate MatchesFilters(e: LogRow, severity: Option<Severity>, action: Option<string>) {
    (severity.None? || e.severity == severity.value) && (action.None? || e.action == action.value)
  }

  predicate Shown(e: LogRow, term: string, severity: Option<Severity>, action: Option<string>) {
    MatchesSearch(e, term) && MatchesFilters(e, severity, action)
  }

  /** `filteredEntries`: the rows passing all three tests, in their original order. */
  function FilteredEntries(rows: seq<LogRow>, term: string, severity: Option<Severity>, action: Option<string>): (r: seq<LogRow>)
    ensures IsSubsequence(r, rows) && |r| <= |rows|
    ensures forall k :: 0 <= k < |r| ==> Shown(r[k], term, severity, action)
    ensures forall k :: 0 <= k < |rows| && Shown(rows[k], term, severity, action) ==> rows[k] in r
  {
    var p := (e: LogRow) => Shown(e, term, severity, action);
    FilterIsSubsequence(rows, p);
    var r := Filter(rows, p);
    assert forall k :: 0 <= k < |r| ==> p(r[k]);
    r
  }

  /** With no search and both drop-downs on "all", every row is listed. */
  lemma NoFilterListsEverything(rows: seq<LogRow>)
    ensures FilteredEntries(rows, "", None, None) == rows
  {
    FilterKeepsAll(rows, (e: LogRow) => Shown(e, "", None, None));
  }

  const CsvHeader: seq<string> := ["Timestamp", "Action", "Actor", "Role", "Target", "Details", "IP Address", "Severity"]

  /** The eight exported fields of a row; `stamp` is the date formatter. */
  function CsvFields(e: LogRow, stamp: int -> string): (fields: seq<string>)
    ensures |fields| == |CsvHeader|
  {
    [stamp(e.timestamp), e.action, e.actor, e.actorRole, e.target, e.details, e.ipAddress, SeverityName(e.severity)]
  }

  /** One exported row: its fields joined by commas, without quoting. */
  function CsvRow(e: LogRow, stamp: int -> string): string {
    Join(CsvFields(e, stamp), ",")
  }

  /** The lines of the file: the header, then one line per row. */
  function CsvLines(rows: seq<LogRow>, stamp: int -> string): (lines: seq<string>)
    ensures |lines| == |rows| + 1
    ensures lines[0] == Join(CsvHeader, ",")
    ensures forall k :: 0 <= k < |rows| ==> lines[k + 1] == CsvRow(rows[k], stamp)
  {
    [Join(CsvHeader, ",")] + seq(|rows|, k requires 0 <= k < |rows| => CsvRow(rows[k], stamp))
  }

  /** `exportAuditLog`'s file body: the lines joined by newlines. */
  function CsvContent(rows: seq<LogRow>, stamp: int -> string): string {
    Join(CsvLines(rows, stamp), "\n")
  }

  /** No exported field of the row contains the character. */
  predicate FieldsLack(e: LogRow, stamp: int -> string, c: char) {
    forall i :: 0 <= i < |CsvFields(e, stamp)| ==> CountChar(CsvFields(e, stamp)[i], c) == 0
  }

  /** A line made from fields lacking `c` lacks it too, unless `c` is the comma. */
  lemma LineLacks(fields: seq<string>, c: char)
    requires fields != [] && c != ','
    requires forall i :: 0 <= i < |fields| ==> CountChar(fields[i], c) == 0
    ensures CountChar(Join(fields, ","), c) == 0
  {
    JoinCountsSeparators(fields, ',', c);
    SumCountAbsent(fields, c);
  }

  lemma HeaderLacksNewline()
    ensures forall i :: 0 <= i < |CsvHeader| ==> CountChar(CsvHeader[i], '\n') == 0
  {
    forall i | 0 <= i < |CsvHeader| ensures CountChar(CsvHeader[i], '\n') == 0 {
      CountCharAbsent(CsvHeader[i], '\n');
    }
  }

  /** Without line breaks inside fields, the file has exactly one line break per exported row. */
  lemma OneLineBreakPerRow(rows: seq<LogRow>, stamp: int -> string)
    requires forall k :: 0 <= k < |rows| ==> FieldsLack(rows[k], stamp, '\n')
    ensures CountChar(CsvContent(rows, stamp), '\n') == |rows|
  {
    var lines := CsvLines(rows, stamp);
    HeaderLacksNewline();
    LineLacks(CsvHeader, '\n');
    forall k | 0 <= k < |lines| ensures CountChar(lines[k], '\n') == 0 {
      if k > 0 {
        LineLacks(CsvFields(rows[k - 1], stamp), '\n');
      }
    }
    JoinCountsSeparators(lines, '\n', '\n');
    SumCountAbsent(lines, '\n');
  }

  /** Because nothing is quoted, a comma inside a field gives its line more than the seven separators. */
  lemma CommaInFieldShiftsColumns(e: LogRow, stamp: int -> string, i: nat)
    requires i < |CsvFields(e, stamp)| && CountChar(CsvFields(e, stamp)[i], ',') > 0
    ensures CountChar(Join(CsvFields(e, stamp), ","), ',') > |CsvHeader| - 1
  {
    JoinCountsSeparators(CsvFields(e, stamp), ',', ',');
    SumCountPresent(CsvFields(e, stamp), ',', i);
  }
}
