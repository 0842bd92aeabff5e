/** `handleExportCSV` of the store admin page: a fixed 15-name header line,
    then one comma-joined row per store, lines joined with `\n`. Six columns are
    wrapped in double quotes; the others are written as they are. */
module CsvExport {
  import opened Wrappers
  import opened Strings
  import opened IntText
  import opened StoreModel

  const HeaderNames: seq<string> := [
    "id", "name", "slug", "address", "city", "state", "pincode", "phone", "email",
    "lat", "lng", "tags", "workingHours", "openedDate", "placeId"]

  /** `headers.join(',')`. */
  function Header(): string {
    Join(HeaderNames, ",")
  }

  lemma HeaderNamesPlain()
    ensures forall i :: 0 <= i < |HeaderNames| ==> ',' !in HeaderNames[i] && '\n' !in HeaderNames[i]
  {
  }

  /** The header is one line whose comma-separated names are exactly the 15
      column names, in order. */
  lemma HeaderLine()
    ensures '\n' !in Header()
    ensures Split(Header(), ',') == HeaderNames && |HeaderNames| == 15
  {
    HeaderNamesPlain();
    JoinChars(HeaderNames, ",", c => c != '\n');
    SplitJoin(HeaderNames, ',');
  }

  /** `"${s}"`. */
  function Quote(s: string): (r: string)
    ensures |r| == |s| + 2 && r[0] == '"' && r[|r| - 1] == '"' && r[1..|r| - 1] == s
  {
    "\"" + s + "\""
  }

  /** `f` is wrapped in double quotes. */
  predicate Quoted(f: string) {
    |f| >= 2 && f[0] == '"' && f[|f| - 1] == '"'
  }

  /** Column `col` of one store's row, in header order. */
  function Field(s: Store, col: nat): string
    requires col < 15
  {
    match col
    case 0 => IntToString(s.id)
    case 1 => Quote(s.name)
    case 2 => s.slug
    case 3 => Quote(s.address)
    case 4 => s.city
    case 5 => s.state
    case 6 => s.pincode
    case 7 => s.phone
    case 8 => s.email
    case 9 => s.lat
    case 10 => s.lng
    case 11 => Quote(Join(s.tags, ";"))
    case 12 => Quote(OrElse(s.workingHours, ""))
    case 13 => Quote(OrElse(s.openedDate, ""))
    case _ => Quote(OrElse(s.placeId, ""))
  }

  /** The 15 fields of one store's row, in header order. */
  function RowFields(s: Store): (fields: seq<string>)
    ensures |fields| == 15 && forall col :: 0 <= col < 15 ==> fields[col] == Field(s, col)
  {
    seq(15, col requires 0 <= col < 15 => Field(s, col))
  }

  /** The name, address, tags, working-hours, opened-date and place-id columns
      are always wrapped in double quotes; the tags are joined with `;`. */
  lemma RowQuotedColumns(s: Store)
    ensures var f := RowFields(s);
      && Quoted(f[1]) && Quoted(f[3]) && Quoted(f[11])
      && Quoted(f[12]) && Quoted(f[13]) && Quoted(f[14])
      && f[11][1..|f[11]| - 1] == Join(s.tags, ";")
  {
  }

  /** A missing optional property exports as `""`. */
  lemma RowMissingOptional(s: Store)
    ensures var f := RowFields(s);
      && (s.workingHours.None? ==> f[12] == "\"\"")
      && (s.openedDate.None? ==> f[13] == "\"\"")
      && (s.placeId.None? ==> f[14] == "\"\"")
  {
  }

  /** One store's line. */
  function Row(s: Store): string {
    Join(RowFields(s), ",")
  }

  /** One row per store, in list order. */
  function Rows(stores: seq<Store>): (rows: seq<string>)
    ensures |rows| == |stores| && forall i :: 0 <= i < |stores| ==> rows[i] == Row(stores[i])
  {
    seq(|stores|, i requires 0 <= i < |stores| => Row(stores[i]))
  }

  /** The whole CSV text. */
  function ExportCsv(stores: seq<Store>): string {
    Join([Header()] + Rows(stores), "\n")
  }

  /** A store all of whose written text stays on one line. */
  predicate SingleLine(s: Store) {
    forall i, j :: 0 <= i < |RowFields(s)| && 0 <= j < |RowFields(s)[i]| ==> RowFields(s)[i][j] != '\n'
  }

  /** A row of a single-line store is one line. */
  lemma RowSingleLine(s: Store)
    requires SingleLine(s)
    ensures '\n' !in Row(s)
  {
    JoinChars(RowFields(s), ",", c => c != '\n');
  }

  /** When no store's text holds a newline, the export's lines are exactly the
      header followed by one row per store, in order. */
  lemma ExportLines(stores: seq<Store>)
    requires forall k :: 0 <= k < |stores| ==> SingleLine(stores[k])
    ensures Split(ExportCsv(stores), '\n') == [Header()] + Rows(stores)
    ensures |Split(ExportCsv(stores), '\n')| == |stores| + 1
  {
    var rows := Rows(stores);
    forall i | 0 <= i < |rows| ensures '\n' !in rows[i] {
      RowSingleLine(stores[i]);
    }
    HeaderLine();
    LinesOfJoin(Header(), rows);
  }

  lemma LinesOfJoin(header: string, rows: seq<string>)
    requires '\n' !in header && forall i :: 0 <= i < |rows| ==> '\n' !in rows[i]
    ensures Split(Join([header] + rows, "\n"), '\n') == [header] + rows
  {
    var lines := [header] + rows;
    assert forall i :: 0 <= i < |lines| ==> '\n' !in lines[i];
    SplitJoin(lines, '\n');
  }
}
