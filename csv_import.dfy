/** `handleImportCSV` of the store admin page: the text is split on `\n`, the
    first line is dropped, blank lines are skipped, and every other line is cut
    into tokens by the global regular expression
    `(".*?"|[^",\s]+)(?=\s*,|\s*$)`, modelled here as an explicit scanner. */
module CsvImport {
  import opened Wrappers
  import opened Strings
  import opened IntText
  import opened StoreModel
  import Seqs

  /** A character an unquoted token may hold: `[^",\s]`. */
  predicate IsBareChar(c: char) {
    c != '"' && c != ',' && !IsWhitespace(c)
  }

  /** The length of the longest run of bare characters at the start of `s`. */
  function BareRun(s: string): (e: nat)
    ensures e <= |s| && forall i :: 0 <= i < e ==> IsBareChar(s[i])
    ensures e < |s| ==> !IsBareChar(s[e])
    decreases |s|
  {
    if s != [] && IsBareChar(s[0]) then 1 + BareRun(s[1..]) else 0
  }

  /** The lookahead `(?=\s*,|\s*$)`: optional whitespace, then a comma or the
      end of the line. */
  predicate Follows(t: string)
    decreases |t|
  {
    t == [] || t[0] == ',' || (IsWhitespace(t[0]) && Follows(t[1..]))
  }

  /** For `s` starting with `"`, the lazy `".*?"` followed by the lookahead: the
      first index `q` from the given one on where `s[q]` is `"` and the
      lookahead holds after it, provided no line terminator comes first. */
  function QuoteClose(s: string, q: nat): (r: Option<nat>)
    requires 1 <= q
    ensures r.Some? ==> q <= r.value < |s| && s[r.value] == '"' && Follows(s[r.value + 1..])
    ensures r.Some? ==> forall k :: q <= k < r.value ==> !IsLineTerminator(s[k])
    ensures r.Some? ==> forall k :: q <= k < r.value ==> !(s[k] == '"' && Follows(s[k + 1..]))
    ensures r.None? ==> forall k :: q <= k < |s| && s[k] == '"' && Follows(s[k + 1..]) ==>
      exists m :: q <= m < k && IsLineTerminator(s[m])
    decreases |s| - q
  {
    if q >= |s| then None
    else if s[q] == '"' && Follows(s[q + 1..]) then Some(q)
    else if IsLineTerminator(s[q]) then None
    else
      var r := QuoteClose(s, q + 1);
      assert r.Some? ==> forall k :: q <= k < r.value ==> !IsLineTerminator(s[k]) by {
        if r.Some? {
          forall k | q <= k < r.value ensures !IsLineTerminator(s[k]) {
            if k > q {
              assert q + 1 <= k < r.value;
            }
          }
        }
      }
      r
  }

  /** A token the expression can produce: quoted, or a run of bare characters. */
  predicate IsToken(t: string) {
    (|t| >= 2 && t[0] == '"' && t[|t| - 1] == '"')
    || (|t| >= 1 && forall i :: 0 <= i < |t| ==> IsBareChar(t[i]))
  }

  /** `line.match(regex) || []`: the tokens in order. A failed match at a
      position moves the scan on by one character. */
  function Tokens(s: string): (ts: seq<string>)
    ensures forall i :: 0 <= i < |ts| ==> IsToken(ts[i])
    decreases |s|
  {
    if s == [] then []
    else if s[0] == '"' then
      match QuoteClose(s, 1)
      case Some(q) => [s[..q + 1]] + Tokens(s[q + 1..])
      case None => Tokens(s[1..])
    else if IsBareChar(s[0]) then
      var e := BareRun(s);
      if Follows(s[e..]) then [s[..e]] + Tokens(s[e..]) else Tokens(s[1..])
    else Tokens(s[1..])
  }

  /** `v.replace(/^"|"$/g, '')`: one leading and one trailing quote removed. */
  function StripQuotes(t: string): (r: string)
    ensures |r| <= |t|
    ensures |t| >= 2 && t[0] == '"' && t[|t| - 1] == '"' ==> r == t[1..|t| - 1]
    ensures (t == [] || t[0] != '"') && (t == [] || t[|t| - 1] != '"') ==> r == t
  {
    var u := if |t| > 0 && t[0] == '"' then t[1..] else t;
    if |u| > 0 && u[|u| - 1] == '"' then u[..|u| - 1] else u
  }

  /** The cleaned values of one line. */
  function Cells(line: string): (vals: seq<string>)
    ensures |vals| == |Tokens(line)|
    ensures forall i :: 0 <= i < |vals| ==> vals[i] == StripQuotes(Tokens(line)[i])
  {
    var ts := Tokens(line);
    seq(|ts|, i requires 0 <= i < |ts| => StripQuotes(ts[i]))
  }

  /** `cleanValues[i] || ''`: a missing value reads as the empty string. */
  function Cell(vals: seq<string>, i: nat): (c: string)
    ensures i < |vals| ==> c == vals[i]
    ensures i >= |vals| ==> c == ""
  {
    if i < |vals| then vals[i] else ""
  }

  predicate NonEmpty(t: string) {
    t != ""
  }

  /** `cell?.split(';').filter(t => t) || []`. */
  function SplitTags(cell: string): (tags: seq<string>)
    ensures forall i :: 0 <= i < |tags| ==> tags[i] != "" && ';' !in tags[i]
  {
    var parts := Split(cell, ';');
    var tags := Seqs.Filter(parts, NonEmpty);
    assert forall i :: 0 <= i < |tags| ==> tags[i] in parts && NonEmpty(tags[i]) by {
      forall i | 0 <= i < |tags| ensures tags[i] in parts && NonEmpty(tags[i]) {
        assert tags[i] in tags;
      }
    }
    tags
  }

  /** One store from one line. */
  function ParseRow(line: string): (s: Store)
    ensures s.workingHours.Some? && s.openedDate.Some? && s.placeId.Some? && s.photos.None?
    ensures forall i :: 0 <= i < |s.tags| ==> s.tags[i] != "" && ';' !in s.tags[i]
    ensures s.lat != "" && s.lng != ""
  {
    StoreOfCells(Cells(line))
  }

  /** The store built from a line's cleaned values, each missing value read as
      `''` (the id as 0). Coordinates keep their cell text, `"0"` when the cell
      is missing or empty. */
  function StoreOfCells(v: seq<string>): (s: Store)
    ensures s.workingHours.Some? && s.openedDate.Some? && s.placeId.Some? && s.photos.None?
    ensures s.lat != "" && s.lng != ""
  {
    Store(ParseIntOrZero(Cell(v, 0)), Cell(v, 1), Cell(v, 2), Cell(v, 3), Cell(v, 4),
          Cell(v, 5), Cell(v, 6), Cell(v, 7), Cell(v, 8),
          if Cell(v, 9) == "" then "0" else Cell(v, 9),
          if Cell(v, 10) == "" then "0" else Cell(v, 10),
          SplitTags(Cell(v, 11)),
          Some(Cell(v, 12)), Some(Cell(v, 13)), Some(Cell(v, 14)), None)
  }

  /** A row with only `n` values gets the defaults in every later column: id
      0, empty text, coordinates `"0"`, no tags. */
  lemma MissingCellsDefault(v: seq<string>)
    requires |v| < 15
    ensures var s := StoreOfCells(v);
      && (|v| <= 0 ==> s.id == 0)
      && (|v| <= 1 ==> s.name == "")
      && (|v| <= 2 ==> s.slug == "")
      && (|v| <= 3 ==> s.address == "")
      && (|v| <= 4 ==> s.city == "")
      && (|v| <= 5 ==> s.state == "")
      && (|v| <= 6 ==> s.pincode == "")
      && (|v| <= 7 ==> s.phone == "")
      && (|v| <= 8 ==> s.email == "")
      && (|v| <= 9 ==> s.lat == "0")
      && (|v| <= 10 ==> s.lng == "0")
      && (|v| <= 11 ==> s.tags == [])
      && (|v| <= 12 ==> s.workingHours == Some(""))
      && (|v| <= 13 ==> s.openedDate == Some(""))
      && s.placeId == Some("")
  {
    assert TrimStart("") == "";
    assert Split("", ';') == [""];
    assert Seqs.Filter([""], NonEmpty) == [];
  }

  /** `!line.trim()`: the line holds nothing but whitespace. */
  predicate IsBlank(line: string) {
    forall i :: 0 <= i < |line| ==> IsWhitespace(line[i])
  }

  /** A line is blank exactly when trimming leaves nothing. */
  lemma BlankIsTrimmedEmpty(line: string)
    ensures IsBlank(line) <==> Trim(line) == ""
  {
  }

  /** The stores of a run of data lines, blank lines skipped, in order. */
  function ParseLines(lines: seq<string>): seq<Store> {
    Seqs.FlatMap(lines, LineStores)
  }

  /** The store a single line contributes: none for a blank line. */
  function LineStores(line: string): (r: seq<Store>)
    ensures |r| == if IsBlank(line) then 0 else 1
  {
    if IsBlank(line) then [] else [ParseRow(line)]
  }

  /** Reading line `i` after lines 1 to `i - 1`: a line that trims to
      nothing adds no store, any other adds its own. */
  lemma ParseNextLine(lines: seq<string>, i: nat)
    requires 1 <= i < |lines|
    ensures ParseLines(lines[1..i + 1]) ==
      ParseLines(lines[1..i]) + (if Trim(lines[i]) == "" then [] else [ParseRow(lines[i])])
  {
    BlankIsTrimmedEmpty(lines[i]);
    Seqs.FlatMapSliceStep(lines, 1, i, LineStores);
  }

  /** The number of non-blank lines. */
  function CountNonBlank(lines: seq<string>): nat
    decreases |lines|
  {
    if lines == [] then 0
    else CountNonBlank(lines[..|lines| - 1]) + (if IsBlank(lines[|lines| - 1]) then 0 else 1)
  }

  /** The stores read back from a CSV text: everything after the first line. */
  function ImportCsv(text: string): seq<Store> {
    ParseLines(Split(text, '\n')[1..])
  }

  /** Parsing distributes over concatenation of line runs. */
  lemma ParseLinesConcat(a: seq<string>, b: seq<string>)
    ensures ParseLines(a + b) == ParseLines(a) + ParseLines(b)
  {
    Seqs.FlatMapConcat(a, b, LineStores);
  }

  /** Parsing one more line appends that line's store, if any. */
  lemma ParseLinesSnoc(lines: seq<string>, line: string)
    ensures ParseLines(lines + [line]) == ParseLines(lines) + LineStores(line)
  {
    Seqs.FlatMapSnoc(lines, line, LineStores);
  }

  /** One store per non-blank line, in order. */
  lemma {:induction false} ParseLinesCount(lines: seq<string>)
    ensures |ParseLines(lines)| == CountNonBlank(lines)
    decreases |lines|
  {
    if lines != [] {
      var init, last := lines[..|lines| - 1], lines[|lines| - 1];
      ParseLinesCount(init);
    }
  }

  /** Blank lines contribute nothing. */
  lemma {:induction false} ParseBlankLines(lines: seq<string>)
    requires forall i :: 0 <= i < |lines| ==> IsBlank(lines[i])
    ensures ParseLines(lines) == []
    decreases |lines|
  {
    if lines != [] {
      ParseBlankLines(lines[..|lines| - 1]);
    }
  }

  /** The first line is discarded, whatever it holds. */
  lemma ImportIgnoresHeader(header: string, body: string)
    requires '\n' !in header
    ensures ImportCsv(header + "\n" + body) == ParseLines(Split(body, '\n'))
  {
    SplitConcat(header, body, '\n');
    SplitNoSeparator(header, '\n');
    assert header + "\n" + body == header + ['\n'] + body;
  }

  /** A bare word followed by the lookahead is one token. */
  lemma BareToken(w: string, rest: string)
    requires |w| >= 1 && forall i :: 0 <= i < |w| ==> IsBareChar(w[i])
    requires rest == [] || !IsBareChar(rest[0])
    requires Follows(rest)
    ensures Tokens(w + rest) == [w] + Tokens(rest)
  {
    var s := w + rest;
    assert BareRun(s) == |w| by {
      BareRunPrefix(w, rest);
    }
    assert s[..|w|] == w && s[|w|..] == rest;
  }

  lemma {:induction false} BareRunPrefix(w: string, rest: string)
    requires forall i :: 0 <= i < |w| ==> IsBareChar(w[i])
    requires rest == [] || !IsBareChar(rest[0])
    ensures BareRun(w + rest) == |w|
    decreases |w|
  {
    if w == [] {
      assert w + rest == rest;
    } else {
      assert (w + rest)[1..] == w[1..] + rest;
      BareRunPrefix(w[1..], rest);
    }
  }

  /** In an unquoted value with a space, only the last word survives: the
      earlier words are not followed by a comma or the end of the line. */
  lemma {:induction false} OnlyLastWord(a: string, b: string)
    requires forall i :: 0 <= i < |a| ==> IsBareChar(a[i])
    requires |b| >= 1 && forall i :: 0 <= i < |b| ==> IsBareChar(b[i])
    ensures Tokens(a + " " + b) == [b]
    decreases |a|
  {
    var rest := " " + b;
    assert !Follows(rest) by {
      assert rest[1..] == b;
    }
    if a == [] {
      assert a + " " + b == rest && rest[1..] == b;
      BareToken(b, []);
      assert b + [] == b;
    } else {
      assert a + " " + b == a + rest;
      assert a[1..] + " " + b == a[1..] + rest;
      BareNotFollowed(a, rest);
      OnlyLastWord(a[1..], b);
    }
  }

  /** A bare word that the lookahead does not follow is no token: the scan
      moves on by one character. */
  lemma BareNotFollowed(a: string, rest: string)
    requires |a| >= 1 && forall i :: 0 <= i < |a| ==> IsBareChar(a[i])
    requires rest == [] || !IsBareChar(rest[0])
    requires !Follows(rest)
    ensures Tokens(a + rest) == Tokens(a[1..] + rest)
  {
    var s := a + rest;
    BareRunPrefix(a, rest);
    assert s[|a|..] == rest && s[1..] == a[1..] + rest;
  }

  /** An empty unquoted field yields no token, so the cells after it shift
      left by one: `x,,y` gives the two tokens `x` and `y`. */
  lemma EmptyFieldShifts(x: string, y: string)
    requires |x| >= 1 && forall i :: 0 <= i < |x| ==> IsBareChar(x[i])
    requires |y| >= 1 && forall i :: 0 <= i < |y| ==> IsBareChar(y[i])
    ensures Tokens(x + ",," + y) == [x, y]
  {
    var t := ",," + y;
    assert x + ",," + y == x + t;
    BareToken(x, t);
    TokensSkipCommas(y);
    BareToken(y, []);
    assert y + [] == y;
  }

  /** Two commas on their own are never a token. */
  lemma TokensSkipCommas(y: string)
    ensures Tokens(",," + y) == Tokens(y)
  {
    assert ",," + y == "," + ("," + y);
    TokensSkipComma("," + y);
    TokensSkipComma(y);
  }

  /** A comma on its own is never a token. */
  lemma TokensSkipComma(t: string)
    ensures Tokens("," + t) == Tokens(t)
  {
    assert ("," + t)[1..] == t;
  }
}
