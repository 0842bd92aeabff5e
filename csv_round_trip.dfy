/** Exporting the stores and importing the text again: under stated conditions
    on the stores' text, every store comes back, in order, with its id and text
    fields; missing optional text comes back as the empty string and photos are
    not carried. */
module CsvRoundTrip {
  import opened Wrappers
  import opened Strings
  import opened IntText
  import opened StoreModel
  import opened CsvExport
  import opened CsvImport
  import Seqs

  /** A value written unquoted that the tokeniser reads back whole: non-empty,
      with no `"`, `,` or whitespace. */
  predicate BareSafe(f: string) {
    |f| >= 1 && forall i :: 0 <= i < |f| ==> IsBareChar(f[i])
  }

  /** A value written inside quotes that the tokeniser reads back whole: no `"`
      and no line terminator (which `.` does not match). */
  predicate QuoteSafe(x: string) {
    forall i :: 0 <= i < |x| ==> x[i] != '"' && !IsLineTerminator(x[i])
  }

  /** Tags that survive the `;`-join and the split that drops empty pieces. */
  predicate TagsSafe(tags: seq<string>) {
    forall i :: 0 <= i < |tags| ==> tags[i] != "" && ';' !in tags[i] && QuoteSafe(tags[i])
  }

  /** The conditions under which a store survives export and import. */
  predicate Exportable(s: Store) {
    && BareSafe(s.slug) && BareSafe(s.city) && BareSafe(s.state) && BareSafe(s.pincode)
    && BareSafe(s.phone) && BareSafe(s.email) && BareSafe(s.lat) && BareSafe(s.lng)
    && QuoteSafe(s.name) && QuoteSafe(s.address)
    && QuoteSafe(OrElse(s.workingHours, "")) && QuoteSafe(OrElse(s.openedDate, ""))
    && QuoteSafe(OrElse(s.placeId, ""))
    && TagsSafe(s.tags)
  }

  /** What the import gives back for an exported store: absent optional text
      becomes the empty string and the photos are gone. */
  function Normalized(s: Store): (n: Store)
    ensures n.id == s.id && n.name == s.name && n.tags == s.tags
    ensures n.workingHours.Some? && n.openedDate.Some? && n.placeId.Some? && n.photos.None?
  {
    s.(workingHours := Some(OrElse(s.workingHours, "")),
       openedDate := Some(OrElse(s.openedDate, "")),
       placeId := Some(OrElse(s.placeId, "")),
       photos := None)
  }

  function NormalizedAll(stores: seq<Store>): (r: seq<Store>)
    ensures |r| == |stores| && forall i :: 0 <= i < |stores| ==> r[i] == Normalized(stores[i])
  {
    seq(|stores|, i requires 0 <= i < |stores| => Normalized(stores[i]))
  }

  /** A field the tokeniser reads back as exactly one token. */
  predicate WellFormedField(f: string) {
    BareSafe(f) || (|f| >= 2 && f[0] == '"' && f[|f| - 1] == '"' && QuoteSafe(f[1..|f| - 1]))
  }

  /** The lazy quoted alternative stops at the first `"` after which the
      lookahead holds. */
  lemma {:induction false} QuoteCloseScan(s: string, q: nat, t: nat)
    requires 1 <= q <= t < |s| && s[t] == '"' && Follows(s[t + 1..])
    requires forall k :: q <= k < t ==> s[k] != '"' && !IsLineTerminator(s[k])
    ensures QuoteClose(s, q) == Some(t)
    decreases t - q
  {
    if q < t {
      QuoteCloseScan(s, q + 1, t);
    }
  }

  /** A well-formed field followed by a comma or the end of the line is one
      token, and scanning goes on right after it. */
  lemma TokenThen(f: string, rest: string)
    requires WellFormedField(f)
    requires rest == [] || rest[0] == ','
    ensures Tokens(f + rest) == [f] + Tokens(rest)
  {
    assert Follows(rest);
    if BareSafe(f) {
      BareToken(f, rest);
    } else {
      var s := f + rest;
      assert s[|f|..] == rest && s[..|f|] == f;
      assert s[|f| - 1 + 1..] == rest;
      forall k | 1 <= k < |f| - 1 ensures s[k] != '"' && !IsLineTerminator(s[k]) {
        assert s[k] == f[1..|f| - 1][k - 1];
      }
      QuoteCloseScan(s, 1, |f| - 1);
    }
  }

  /** Tokenising a comma-join of well-formed fields gives the fields back. */
  lemma {:induction false} TokensOfJoin(fields: seq<string>)
    requires |fields| >= 1
    requires forall i :: 0 <= i < |fields| ==> WellFormedField(fields[i])
    ensures Tokens(Join(fields, ",")) == fields
    decreases |fields|
  {
    if |fields| == 1 {
      TokenThen(fields[0], []);
      assert fields[0] + [] == fields[0];
    } else {
      var rest := Join(fields[1..], ",");
      assert Join(fields, ",") == fields[0] + ("," + rest);
      TokenThen(fields[0], "," + rest);
      TokensSkipComma(rest);
      TokensOfJoin(fields[1..]);
      assert [fields[0]] + fields[1..] == fields;
    }
  }

  lemma QuotedWellFormed(x: string)
    requires QuoteSafe(x)
    ensures WellFormedField(Quote(x)) && StripQuotes(Quote(x)) == x
  {
  }

  lemma BareStripped(f: string)
    requires BareSafe(f)
    ensures WellFormedField(f) && StripQuotes(f) == f
  {
  }

  /** The text of an id is a bare token. */
  lemma IdBareSafe(n: int)
    ensures BareSafe(IntToString(n))
  {
    var t := IntToString(n);
    forall i | 0 <= i < |t| ensures IsBareChar(t[i]) {
      assert IsDigit(t[i]) || t[i] == '-';
    }
  }

  /** `;`-joined safe tags are safe inside quotes. */
  lemma TagsJoinSafe(tags: seq<string>)
    requires TagsSafe(tags)
    ensures QuoteSafe(Join(tags, ";"))
  {
    JoinChars(tags, ";", c => c != '"' && !IsLineTerminator(c));
  }

  /** The value the import sees in column `col` of an exported row. */
  function ExpectedCell(s: Store, col: nat): string
    requires col < 15
  {
    match col
    case 0 => IntToString(s.id)
    case 1 => s.name
    case 2 => s.slug
    case 3 => s.address
    case 4 => s.city
    case 5 => s.state
    case 6 => s.pincode
    case 7 => s.phone
    case 8 => s.email
    case 9 => s.lat
    case 10 => s.lng
    case 11 => Join(s.tags, ";")
    case 12 => OrElse(s.workingHours, "")
    case 13 => OrElse(s.openedDate, "")
    case _ => OrElse(s.placeId, "")
  }

  /** The cell values the import sees on an exported row. */
  function ExpectedCells(s: Store): (cells: seq<string>)
    ensures |cells| == 15 && forall col :: 0 <= col < 15 ==> cells[col] == ExpectedCell(s, col)
  {
    seq(15, col requires 0 <= col < 15 => ExpectedCell(s, col))
  }

  /** Each field of an exportable store's row is read back as one token whose
      cleaned value is the store's text. */
  lemma RowFieldsClean(s: Store)
    requires Exportable(s)
    ensures forall i :: 0 <= i < 15 ==> WellFormedField(RowFields(s)[i])
    ensures forall i :: 0 <= i < 15 ==> StripQuotes(RowFields(s)[i]) == ExpectedCells(s)[i]
  {
    forall col | 0 <= col < 15
      ensures WellFormedField(Field(s, col)) && StripQuotes(Field(s, col)) == ExpectedCell(s, col)
    {
      FieldClean(s, col);
    }
  }

  /** One column of an exportable store's row is read back as its value. */
  lemma FieldClean(s: Store, col: nat)
    requires Exportable(s) && col < 15
    ensures WellFormedField(Field(s, col)) && StripQuotes(Field(s, col)) == ExpectedCell(s, col)
  {
    match col
    case 0 => IdBareSafe(s.id); BareStripped(IntToString(s.id));
    case 1 => QuotedWellFormed(s.name);
    case 2 => BareStripped(s.slug);
    case 3 => QuotedWellFormed(s.address);
    case 4 => BareStripped(s.city);
    case 5 => BareStripped(s.state);
    case 6 => BareStripped(s.pincode);
    case 7 => BareStripped(s.phone);
    case 8 => BareStripped(s.email);
    case 9 => BareStripped(s.lat);
    case 10 => BareStripped(s.lng);
    case 11 => TagsJoinSafe(s.tags); QuotedWellFormed(Join(s.tags, ";"));
    case 12 => QuotedWellFormed(OrElse(s.workingHours, ""));
    case 13 => QuotedWellFormed(OrElse(s.openedDate, ""));
    case _ => QuotedWellFormed(OrElse(s.placeId, ""));
  }

  /** The cells of an exported row are exactly the store's text. */
  lemma RowCells(s: Store)
    requires Exportable(s)
    ensures Cells(Row(s)) == ExpectedCells(s)
  {
    RowFieldsClean(s);
    TokensOfJoin(RowFields(s));
  }

  /** Splitting the `;`-join of safe tags and dropping empties gives the tags. */
  lemma TagsRoundTrip(tags: seq<string>)
    requires TagsSafe(tags)
    ensures SplitTags(Join(tags, ";")) == tags
  {
    if tags == [] {
      assert Split("", ';') == [""];
      assert Seqs.Filter([""], NonEmpty) == [];
    } else {
      SplitJoin(tags, ';');
      Seqs.FilterAll(tags, NonEmpty);
    }
  }

  /** An exported row is not blank: it starts with the id. */
  lemma RowNotBlank(s: Store)
    ensures !IsBlank(Row(s))
  {
    IdBareSafe(s.id);
    var f := RowFields(s);
    assert Row(s) == f[0] + "," + Join(f[1..], ",");
    assert Row(s)[0] == IntToString(s.id)[0];
  }

  /** The values of an exported row build the store back, up to Normalized. */
  lemma StoreOfExpectedCells(s: Store)
    requires s.lat != "" && s.lng != "" && TagsSafe(s.tags)
    ensures StoreOfCells(ExpectedCells(s)) == Normalized(s)
  {
    ParseIntToString(s.id);
    TagsRoundTrip(s.tags);
  }

  /** Importing the row of an exportable store gives the store back, up to
      Normalized. */
  lemma RowRoundTrip(s: Store)
    requires Exportable(s)
    ensures LineStores(Row(s)) == [Normalized(s)]
  {
    var line := Row(s);
    assert !IsBlank(line) by {
      RowNotBlank(s);
    }
    assert ParseRow(line) == Normalized(s) by {
      RowCells(s);
      StoreOfExpectedCells(s);
    }
  }

  /** An exportable store's text holds no newline. */
  lemma ExportableSingleLine(s: Store)
    requires Exportable(s)
    ensures SingleLine(s)
  {
    RowFieldsClean(s);
    var f := RowFields(s);
    forall i, j | 0 <= i < |f| && 0 <= j < |f[i]| ensures f[i][j] != '\n' {
      if !BareSafe(f[i]) {
        if 0 < j < |f[i]| - 1 {
          assert f[i][j] == f[i][1..|f[i]| - 1][j - 1];
        }
      }
    }
  }

  /** Importing the rows gives the normalized stores, in order. */
  lemma ParseRows(stores: seq<Store>)
    requires forall k :: 0 <= k < |stores| ==> Exportable(stores[k])
    ensures ParseLines(Rows(stores)) == NormalizedAll(stores)
  {
    var rows := Rows(stores);
    var back := NormalizedAll(stores);
    forall i | 0 <= i < |rows| ensures LineStores(rows[i]) == [back[i]] {
      RowRoundTrip(stores[i]);
    }
    Seqs.FlatMapSingletons(rows, LineStores, back);
  }

  /** Export followed by import reproduces every exportable store, in order:
      its id and all its text, missing optional text as the empty string, and
      no photos. */
  lemma ExportImportRoundTrip(stores: seq<Store>)
    requires forall k :: 0 <= k < |stores| ==> Exportable(stores[k])
    ensures ImportCsv(ExportCsv(stores)) == NormalizedAll(stores)
  {
    forall k | 0 <= k < |stores| ensures SingleLine(stores[k]) {
      ExportableSingleLine(stores[k]);
    }
    ExportLines(stores);
    assert ([Header()] + Rows(stores))[1..] == Rows(stores);
    ParseRows(stores);
  }
}
