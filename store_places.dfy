/** The Places enrichment script: it cuts the store array literal out of the
    store data file, splits it into `{...},` chunks, reads each chunk's name,
    address and city, and for every chunk that has all three asks the place
    search for a place and the details service for that place, keeping a
    result for each store where both lookups succeed. The two lookups are
    given as functions from the request to the parsed response, `None` where
    the request or the response parsing fails. */
module StorePlaces {
  import opened Wrappers
  import opened Strings
  import Seqs

  // ---------------------------------------------------------------------------
  // The array literal

  const ArrayOpen: string := "export const STORES: Store[] = ["
  const ArrayClose: string := "];"

  /** The capture of `/export const STORES: Store\[\] = \[([\s\S]*?)\];/`: the
      text between the first array opening and the first `];` after it. */
  function ExtractArray(content: string): (body: Option<string>)
    ensures body.Some? ==> Contains(content, ArrayOpen + body.value + ArrayClose)
    ensures body.Some? ==> forall q: nat :: !OccursAt(body.value, ArrayClose, q)
    ensures body.Some? ==> exists i: nat ::
      && OccursAt(content, ArrayOpen, i)
      && (forall k: nat :: k < i ==> !OccursAt(content, ArrayOpen, k))
      && OccursAt(content, ArrayOpen + body.value + ArrayClose, i)
      && (forall q: nat :: i + |ArrayOpen| <= q < i + |ArrayOpen| + |body.value| ==> !OccursAt(content, ArrayClose, q))
    ensures body.None? ==>
      forall i: nat, j: nat :: OccursAt(content, ArrayOpen, i) && i + |ArrayOpen| <= j ==>
        !OccursAt(content, ArrayClose, j)
  {
    match IndexOf(content, ArrayOpen)
    case None => None
    case Some(i) =>
      match IndexFrom(content, ArrayClose, i + |ArrayOpen|)
      case None => None
      case Some(j) =>
        CaptureShape(content, i, j);
        Some(content[i + |ArrayOpen|..j])
  }

  /** The text between an opening at `i` and the first `];` after it, at `j`,
      holds no `];` and is enclosed by the two in the content. */
  lemma CaptureShape(content: string, i: nat, j: nat)
    requires OccursAt(content, ArrayOpen, i) && i + |ArrayOpen| <= j && OccursAt(content, ArrayClose, j)
    requires forall q: nat :: i + |ArrayOpen| <= q < j ==> !OccursAt(content, ArrayClose, q)
    ensures var body := content[i + |ArrayOpen|..j];
      && OccursAt(content, ArrayOpen + body + ArrayClose, i)
      && Contains(content, ArrayOpen + body + ArrayClose) && forall q: nat :: !OccursAt(body, ArrayClose, q)
  {
    var a := i + |ArrayOpen|;
    var body := content[a..j];
    forall q: nat | OccursAt(body, ArrayClose, q) ensures false {
      OccursInSlice(content, a, j, ArrayClose, q);
    }
    assert content[i..j + 2] == ArrayOpen + body + ArrayClose;
    OccursContains(content, ArrayOpen + body + ArrayClose, i);
  }

  /** An occurrence at a position is an occurrence somewhere. */
  lemma {:induction false} OccursContains(s: string, pat: string, i: nat)
    requires OccursAt(s, pat, i)
    ensures Contains(s, pat)
    decreases i
  {
    if i == 0 {
      assert s[..|pat|] == pat;
    } else {
      assert s[1..][i - 1..i - 1 + |pat|] == s[i..i + |pat|];
      OccursContains(s[1..], pat, i - 1);
    }
  }

  // ---------------------------------------------------------------------------
  // The `{...},` chunks

  /** The position of one chunk: `text[start..end]`. */
  datatype Span = Span(start: nat, end: nat)

  /** `s` is the match the chunk pattern finds when the scan resumes at `p`:
      it starts at the first `{` at or after `p` and ends with the first `},`
      after that `{`. */
  predicate ChunkAt(text: string, p: nat, s: Span) {
    IndexFrom(text, "{", p) == Some(s.start) && s.end >= 2 && IndexFrom(text, "},", s.start + 1) == Some(s.end - 2)
  }

  /** The next match of `/\{[\s\S]*?\},/` when the scan resumes at `p`; when
      there is none, no `{` at or after `p` is followed by `},`. */
  function NextChunk(text: string, p: nat): (s: Option<Span>)
    ensures s.Some? ==> p < s.value.end <= |text| && ChunkAt(text, p, s.value)
    ensures s.None? ==>
      forall k: nat, j: nat :: p <= k < j && OccursAt(text, "{", k) ==> !OccursAt(text, "},", j)
  {
    match IndexFrom(text, "{", p)
    case None => None
    case Some(k) =>
      match IndexFrom(text, "},", k + 1)
      case None => None
      case Some(j) => Some(Span(k, j + 2))
  }

  /** The matches of `/\{[\s\S]*?\},/g` from position `p` on. */
  function ChunkSpans(text: string, p: nat): seq<Span>
    decreases |text| - p
  {
    match NextChunk(text, p)
    case None => []
    case Some(s) => [s] + ChunkSpans(text, s.end)
  }

  /** Where the scan from `p` resumes after the first `i` chunks. */
  function Resume(spans: seq<Span>, p: nat, i: nat): nat
    requires i <= |spans|
  {
    if i == 0 then p else spans[i - 1].end
  }

  /** `{` at a position is an occurrence of the one-character pattern. */
  lemma OpenAt(text: string, q: nat)
    ensures OccursAt(text, "{", q) <==> q < |text| && text[q] == '{'
  {
    if q < |text| {
      assert text[q..q + 1] == [text[q]];
    }
  }

  /** What one match is: it lies inside the text, starts with `{` and ends with
      `},` that occurs nowhere earlier in it, and no `{` precedes it after the
      resume position. */
  lemma ChunkAtShape(text: string, p: nat, s: Span)
    requires ChunkAt(text, p, s)
    ensures p <= s.start && s.start + 3 <= s.end <= |text|
    ensures text[s.start] == '{' && OccursAt(text, "},", s.end - 2)
    ensures forall q: nat :: s.start <= q < s.end - 2 ==> !OccursAt(text, "},", q)
    ensures forall q: nat :: p <= q < s.start ==> text[q] != '{'
  {
    OpenAt(text, s.start);
    forall q: nat | p <= q < s.start ensures text[q] != '{' {
      OpenAt(text, q);
    }
    assert !OccursAt(text, "},", s.start);
  }

  /** Every span is the match found where the scan from `p` resumes after the
      spans before it. */
  predicate MatchesInTurn(text: string, p: nat, r: seq<Span>) {
    forall i :: 0 <= i < |r| ==> ChunkAt(text, Resume(r, p, i), r[i])
  }

  /** The chunks are the successive matches of the pattern. */
  lemma {:induction false} ChunkSpansMatch(text: string, p: nat)
    ensures MatchesInTurn(text, p, ChunkSpans(text, p))
    decreases |text| - p
  {
    match NextChunk(text, p)
    case None =>
    case Some(s) =>
      var r, rest := ChunkSpans(text, p), ChunkSpans(text, s.end);
      ChunkSpansMatch(text, s.end);
      assert r == [s] + rest;
      forall i | 1 <= i < |r| ensures ChunkAt(text, Resume(r, p, i), r[i]) {
        var i' := i - 1;
        assert ChunkAt(text, Resume(rest, s.end, i'), rest[i']);
        assert r[i] == rest[i'] && Resume(r, p, i) == Resume(rest, s.end, i');
      }
  }

  /** After the last chunk, no `{` is followed by `},`: an object not closed by
      `},` gives no chunk. */
  lemma {:induction false} ChunkSpansMaximal(text: string, p: nat)
    ensures var r := ChunkSpans(text, p);
      forall k: nat, j: nat :: Resume(r, p, |r|) <= k < j && OccursAt(text, "{", k) ==> !OccursAt(text, "},", j)
    decreases |text| - p
  {
    match NextChunk(text, p)
    case None =>
    case Some(s) =>
      var r, rest := ChunkSpans(text, p), ChunkSpans(text, s.end);
      ChunkSpansMaximal(text, s.end);
      assert r == [s] + rest;
      assert Resume(r, p, |r|) == Resume(rest, s.end, |rest|);
  }

  /** The chunks lie inside the text, in text order, without overlapping. */
  lemma ChunkSpansOrdered(text: string, p: nat)
    ensures var r := ChunkSpans(text, p);
      && (forall i :: 0 <= i < |r| ==> r[i].start + 3 <= r[i].end <= |text|)
      && (r != [] ==> p <= r[0].start)
      && (forall i :: 0 <= i < |r| - 1 ==> r[i].end <= r[i + 1].start)
  {
    var r := ChunkSpans(text, p);
    ChunkSpansMatch(text, p);
    forall i | 0 <= i < |r| ensures Resume(r, p, i) <= r[i].start && r[i].start + 3 <= r[i].end <= |text| {
      assert ChunkAt(text, Resume(r, p, i), r[i]);
      ChunkAtShape(text, Resume(r, p, i), r[i]);
    }
    forall i | 0 <= i < |r| - 1 ensures r[i].end <= r[i + 1].start {
      assert Resume(r, p, i + 1) == r[i].end;
      assert Resume(r, p, i + 1) <= r[i + 1].start;
    }
    if r != [] {
      assert Resume(r, p, 0) <= r[0].start;
    }
  }

  /** The chunk texts, `storesArrayText.match(/\{[\s\S]*?\},/g) || []`. */
  function Chunks(text: string): (chunks: seq<string>)
    ensures |chunks| == |ChunkSpans(text, 0)|
  {
    var r := ChunkSpans(text, 0);
    ChunkSpansOrdered(text, 0);
    seq(|r|, i requires 0 <= i < |r| => text[r[i].start..r[i].end])
  }

  /** The text of one match starts with `{` and ends with `},`, its first
      occurrence of `},`. */
  lemma ChunkTextShape(text: string, p: nat, s: Span)
    requires ChunkAt(text, p, s)
    ensures s.start <= s.end <= |text|
    ensures var c := text[s.start..s.end];
      && |c| >= 3 && c[0] == '{' && c[|c| - 2..] == "},"
      && forall q: nat :: q < |c| - 2 ==> !OccursAt(c, "},", q)
  {
    ChunkAtShape(text, p, s);
    var c := text[s.start..s.end];
    assert c[|c| - 2..] == text[s.end - 2..s.end];
    forall q: nat | q < |c| - 2 ensures !OccursAt(c, "},", q) {
      if OccursAt(c, "},", q) {
        OccursInSlice(text, s.start, s.end, "},", q);
      }
    }
  }

  /** A well-shaped chunk text: `{`, then text without `},`, then `},`. */
  predicate ChunkShaped(c: string) {
    && |c| >= 3 && c[0] == '{' && c[|c| - 2..] == "},"
    && forall q: nat :: q < |c| - 2 ==> !OccursAt(c, "},", q)
  }

  /** Every chunk is well shaped. */
  lemma ChunksShape(text: string)
    ensures forall i :: 0 <= i < |Chunks(text)| ==> ChunkShaped(Chunks(text)[i])
  {
    var r := ChunkSpans(text, 0);
    var chunks := Chunks(text);
    ChunkSpansMatch(text, 0);
    forall i | 0 <= i < |chunks| ensures ChunkShaped(chunks[i]) {
      var s := r[i];
      assert ChunkAt(text, Resume(r, 0, i), s);
      ChunkTextShape(text, Resume(r, 0, i), s);
      assert chunks[i] == text[s.start..s.end];
    }
  }

  // ---------------------------------------------------------------------------
  // The string fields of a chunk

  /** The first index at or after `k` that is not whitespace (`\s*`). */
  function SkipSpaces(s: string, k: nat): (r: nat)
    requires k <= |s|
    ensures k <= r <= |s| && (r == |s| || !IsWhitespace(s[r]))
    ensures forall q :: k <= q < r ==> IsWhitespace(s[q])
    decreases |s| - k
  {
    if k == |s| || !IsWhitespace(s[k]) then k else SkipSpaces(s, k + 1)
  }

  /** The capture of `/<key>\s*"([^"]+)"/` when a match starts at `p`. */
  function MatchAt(s: string, key: string, p: nat): (v: Option<string>)
    ensures v.Some? ==> OccursAt(s, key, p) && |v.value| >= 1 && '"' !in v.value
  {
    if !OccursAt(s, key, p) then None
    else
      var a := SkipSpaces(s, p + |key|);
      if a < |s| && s[a] == '"' then
        match IndexFrom(s, "\"", a + 1)
        case None => None
        case Some(b) =>
          if b > a + 1 then
            assert forall q: nat :: a + 1 <= q < b ==> s[q] != '"' by {
              forall q: nat | a + 1 <= q < b ensures s[q] != '"' {
                assert !OccursAt(s, "\"", q);
                assert s[q..q + 1] == [s[q]];
              }
            }
            Some(s[a + 1..b])
          else None
      else None
  }

  /** The leftmost position at or after `k` where the field pattern matches. */
  function MatchFrom(s: string, key: string, k: nat): (r: Option<nat>)
    ensures r.Some? ==> k <= r.value && MatchAt(s, key, r.value).Some?
    ensures r.Some? ==> forall q: nat :: k <= q < r.value ==> MatchAt(s, key, q).None?
    ensures r.None? ==> forall q: nat :: k <= q ==> MatchAt(s, key, q).None?
    decreases |s| - k
  {
    if k > |s| then None
    else if MatchAt(s, key, k).Some? then Some(k)
    else MatchFrom(s, key, k + 1)
  }

  /** `chunk.match(/<key>\s*"([^"]+)"/)[1]`: the value at the leftmost match,
      non-empty and free of `"`. */
  function Field(s: string, key: string): (v: Option<string>)
    ensures v.Some? ==> |v.value| >= 1 && '"' !in v.value
    ensures v.None? <==> forall q: nat :: MatchAt(s, key, q).None?
    ensures v.Some? ==> exists q: nat :: v == MatchAt(s, key, q) && forall q': nat :: q' < q ==> MatchAt(s, key, q').None?
  {
    match MatchFrom(s, key, 0)
    case None => None
    case Some(q) => MatchAt(s, key, q)
  }

  /** The three fields the lookups need. */
  datatype StoreText = StoreText(name: string, address: string, city: string)

  /** A chunk is well formed when it has all three fields. */
  function StoreFields(chunk: string): (t: Option<StoreText>)
    ensures t.Some? <==>
      Field(chunk, "name:").Some? && Field(chunk, "address:").Some? && Field(chunk, "city:").Some?
    ensures t.Some? ==> t.value == StoreText(Field(chunk, "name:").value,
      Field(chunk, "address:").value, Field(chunk, "city:").value)
  {
    match (Field(chunk, "name:"), Field(chunk, "address:"), Field(chunk, "city:"))
    case (Some(n), Some(a), Some(c)) => Some(StoreText(n, a, c))
    case _ => None
  }

  /** The text search query of `findPlaceId`. */
  function Query(t: StoreText): string {
    t.name + ", " + t.address + ", " + t.city
  }

  /** The query splits back into its three parts at the commas when the parts
      hold none. */
  lemma QueryParts(t: StoreText)
    requires ',' !in t.name && ',' !in t.address && ',' !in t.city
    ensures Split(Query(t), ',') == [t.name, " " + t.address, " " + t.city]
  {
    var parts := [t.name, " " + t.address, " " + t.city];
    assert Join(parts, [',']) == Query(t) by {
      assert Join(parts[2..], [',']) == " " + t.city;
      assert Join(parts[1..], [',']) == " " + t.address + "," + (" " + t.city);
    }
    SplitJoin(parts, ',');
  }

  // ---------------------------------------------------------------------------
  // The two lookups

  /** Values the script copies from a response without looking at them
      (coordinates, rating, review count, URL) are kept as their JSON text. */
  type Value = string

  datatype Candidate = Candidate(placeId: Option<string>, lat: Option<Value>, lng: Option<Value>)
  datatype FindResponse = FindResponse(status: string, candidates: Option<seq<Candidate>>)
  datatype Details = Details(rating: Option<Value>, totalReviews: Option<Value>,
                             lat: Option<Value>, lng: Option<Value>, url: Option<Value>)
  datatype DetailsResponse = DetailsResponse(status: string, result: Option<Details>)

  /** `findPlaceId`'s answer: the first candidate when the status is `OK` and
      there is one; nothing when the request failed. */
  function FoundPlace(resp: Option<FindResponse>): (c: Option<Candidate>)
    ensures c.Some? <==>
      resp.Some? && resp.value.status == "OK" && resp.value.candidates.Some? && |resp.value.candidates.value| > 0
    ensures c.Some? ==> c.value == resp.value.candidates.value[0]
  {
    if resp.Some? && resp.value.status == "OK" && resp.value.candidates.Some?
       && |resp.value.candidates.value| > 0
    then Some(resp.value.candidates.value[0])
    else None
  }

  /** `getPlaceDetails`'s answer: the result when the status is `OK`. */
  function PlaceDetails(resp: Option<DetailsResponse>): (d: Option<Details>)
    ensures d.Some? ==> resp.Some? && resp.value.status == "OK" && d == resp.value.result
    ensures resp.Some? && resp.value.status == "OK" ==> d == resp.value.result
  {
    if resp.Some? && resp.value.status == "OK" then resp.value.result else None
  }

  /** `placeData.placeId` is truthy: present and not empty. */
  predicate HasPlaceId(c: Candidate) {
    c.placeId.Some? && c.placeId.value != ""
  }

  /** `a || b` on optional values. */
  function FirstPresent(a: Option<Value>, b: Option<Value>): Option<Value> {
    if a.Some? then a else b
  }

  /** One entry of `store-places-results.json`. */
  datatype PlaceResult = PlaceResult(name: string, placeId: string, rating: Option<Value>,
    totalReviews: Option<Value>, lat: Option<Value>, lng: Option<Value>, googleUrl: Option<Value>)

  function MakeResult(t: StoreText, c: Candidate, d: Details): PlaceResult
    requires HasPlaceId(c)
  {
    PlaceResult(t.name, c.placeId.value, d.rating, d.totalReviews,
                FirstPresent(c.lat, d.lat), FirstPresent(c.lng, d.lng), d.url)
  }

  // ---------------------------------------------------------------------------
  // What one chunk contributes

  /** The queries sent for a chunk: one when it is well formed, none otherwise. */
  function ChunkQueries(chunk: string): (qs: seq<string>)
    ensures |qs| == if StoreFields(chunk).Some? then 1 else 0
  {
    match StoreFields(chunk)
    case None => []
    case Some(t) => [Query(t)]
  }

  /** The place ids whose details are requested for a chunk. */
  function ChunkDetailIds(chunk: string, find: string -> Option<FindResponse>): seq<string> {
    match StoreFields(chunk)
    case None => []
    case Some(t) =>
      var c := FoundPlace(find(Query(t)));
      if c.Some? && HasPlaceId(c.value) then [c.value.placeId.value] else []
  }

  /** The result a chunk adds: present exactly when the chunk is well formed,
      the search finds a place with an id and the details lookup succeeds. */
  function ChunkResult(chunk: string, find: string -> Option<FindResponse>,
                       details: string -> Option<DetailsResponse>): (r: Option<PlaceResult>)
    ensures r.Some? <==>
      && StoreFields(chunk).Some?
      && FoundPlace(find(Query(StoreFields(chunk).value))).Some?
      && HasPlaceId(FoundPlace(find(Query(StoreFields(chunk).value))).value)
      && PlaceDetails(details(FoundPlace(find(Query(StoreFields(chunk).value))).value.placeId.value)).Some?
    ensures r.Some? ==> r.value.name == StoreFields(chunk).value.name
    ensures r.Some? ==> r.value.placeId == FoundPlace(find(Query(StoreFields(chunk).value))).value.placeId.value
  {
    match StoreFields(chunk)
    case None => None
    case Some(t) =>
      var c := FoundPlace(find(Query(t)));
      if c.Some? && HasPlaceId(c.value) then
        var d := PlaceDetails(details(c.value.placeId.value));
        if d.Some? then Some(MakeResult(t, c.value, d.value)) else None
      else None
  }

  function ChunkResults(chunk: string, find: string -> Option<FindResponse>,
                        details: string -> Option<DetailsResponse>): (rs: seq<PlaceResult>)
    ensures |rs| <= |ChunkQueries(chunk)|
  {
    var r := ChunkResult(chunk, find, details);
    if r.Some? then [r.value] else []
  }

  // ---------------------------------------------------------------------------
  // All chunks

  function Queries(chunks: seq<string>): seq<string> {
    Seqs.FlatMap(chunks, ChunkQueries)
  }

  function DetailIds(chunks: seq<string>, find: string -> Option<FindResponse>): seq<string> {
    Seqs.FlatMap(chunks, c => ChunkDetailIds(c, find))
  }

  function Results(chunks: seq<string>, find: string -> Option<FindResponse>,
                   details: string -> Option<DetailsResponse>): seq<PlaceResult> {
    Seqs.FlatMap(chunks, c => ChunkResults(c, find, details))
  }

  /** The well-formed chunks, in order. */
  function WellFormed(chunks: seq<string>): seq<string> {
    Seqs.FlatMap(chunks, c => if StoreFields(c).Some? then [c] else [])
  }

  /** The query a well-formed chunk sends. */
  function QueryOf(chunk: string): string {
    match StoreFields(chunk)
    case None => ""
    case Some(t) => Query(t)
  }

  /** One query per well-formed chunk, in chunk order. */
  lemma QueriesOfWellFormed(chunks: seq<string>)
    ensures |Queries(chunks)| == |WellFormed(chunks)|
    ensures forall i :: 0 <= i < |Queries(chunks)| ==> Queries(chunks)[i] == QueryOf(WellFormed(chunks)[i])
  {
    Seqs.FlatMapPointwise(chunks, ChunkQueries, c => if StoreFields(c).Some? then [c] else [], QueryOf);
  }

  /** There are at most as many results as queries. */
  lemma ResultsBound(chunks: seq<string>, find: string -> Option<FindResponse>,
                     details: string -> Option<DetailsResponse>)
    ensures |Results(chunks, find, details)| <= |Queries(chunks)| <= |chunks|
  {
    Seqs.FlatMapLengthLe(chunks, c => ChunkResults(c, find, details), ChunkQueries);
    Seqs.FlatMapLengthLe(chunks, ChunkQueries, c => [c]);
    Seqs.FlatMapSingletons(chunks, c => [c], chunks);
  }

  /** A chunk's failure never affects the others: the results of two runs of
      chunks are those of the first followed by those of the second. */
  lemma ResultsConcat(a: seq<string>, b: seq<string>, find: string -> Option<FindResponse>,
                      details: string -> Option<DetailsResponse>)
    ensures Results(a + b, find, details) == Results(a, find, details) + Results(b, find, details)
  {
    Seqs.FlatMapConcat(a, b, c => ChunkResults(c, find, details));
  }

  /** Every result belongs to a well-formed chunk, carries the chunk's name and
      the place id the search found for it. */
  lemma ResultsFromChunks(chunks: seq<string>, find: string -> Option<FindResponse>,
                          details: string -> Option<DetailsResponse>, r: PlaceResult)
    requires r in Results(chunks, find, details)
    ensures exists i :: 0 <= i < |chunks| && ChunkResult(chunks[i], find, details) == Some(r)
  {
    Seqs.FlatMapMember(chunks, c => ChunkResults(c, find, details), r);
  }

  // ---------------------------------------------------------------------------
  // processStores

  /** Reading one more chunk adds that chunk's queries, detail lookups and
      result. */
  lemma ProcessStep(chunks: seq<string>, i: nat, find: string -> Option<FindResponse>,
                    details: string -> Option<DetailsResponse>)
    requires i < |chunks|
    ensures Queries(chunks[..i + 1]) == Queries(chunks[..i]) + ChunkQueries(chunks[i])
    ensures DetailIds(chunks[..i + 1], find) == DetailIds(chunks[..i], find) + ChunkDetailIds(chunks[i], find)
    ensures Results(chunks[..i + 1], find, details) ==
      Results(chunks[..i], find, details) + ChunkResults(chunks[i], find, details)
  {
    Seqs.FlatMapPrefixStep(chunks, i, ChunkQueries);
    Seqs.FlatMapPrefixStep(chunks, i, c => ChunkDetailIds(c, find));
    Seqs.FlatMapPrefixStep(chunks, i, c => ChunkResults(c, find, details));
  }

  /** The body of the loop of `processStores` for one chunk: a chunk missing a
      field is skipped; otherwise the search runs, and the details lookup runs
      when a place id was found; a result is kept when both succeed. */
  method ProcessChunk(chunk: string, find: string -> Option<FindResponse>,
                      details: string -> Option<DetailsResponse>)
    returns (queries: seq<string>, detailIds: seq<string>, results: seq<PlaceResult>)
    ensures queries == ChunkQueries(chunk)
    ensures detailIds == ChunkDetailIds(chunk, find)
    ensures results == ChunkResults(chunk, find, details)
  {
    queries, detailIds, results := [], [], [];
    var fields := StoreFields(chunk);
    if fields.Some? {
      var query := Query(fields.value);
      queries := [query];
      var place := FoundPlace(find(query));
      if place.Some? && HasPlaceId(place.value) {
        var placeId := place.value.placeId.value;
        detailIds := [placeId];
        var d := PlaceDetails(details(placeId));
        if d.Some? {
          results := [MakeResult(fields.value, place.value, d.value)];
        }
      }
    }
  }

  /** `processStores`. `saved` is what is written to the results file (nothing
      when the array literal is missing); `queries` and `detailIds` are the
      search queries and the place ids sent to the two lookups, in order. */
  method ProcessStores(content: string, find: string -> Option<FindResponse>,
                       details: string -> Option<DetailsResponse>)
    returns (saved: Option<seq<PlaceResult>>, queries: seq<string>, detailIds: seq<string>)
    ensures ExtractArray(content).None? ==> saved.None? && queries == [] && detailIds == []
    ensures ExtractArray(content).Some? ==>
      var chunks := Chunks(ExtractArray(content).value);
      && saved == Some(Results(chunks, find, details))
      && queries == Queries(chunks)
      && detailIds == DetailIds(chunks, find)
  {
    queries, detailIds := [], [];
    var body := ExtractArray(content);
    if body.None? {
      return None, queries, detailIds;
    }
    var chunks := Chunks(body.value);
    var results: seq<PlaceResult> := [];
    var i := 0;
    while i < |chunks|
      invariant 0 <= i <= |chunks|
      invariant results == Results(chunks[..i], find, details)
      invariant queries == Queries(chunks[..i])
      invariant detailIds == DetailIds(chunks[..i], find)
    {
      ProcessStep(chunks, i, find, details);
      var q, ids, rs := ProcessChunk(chunks[i], find, details);
      queries, detailIds, results := queries + q, detailIds + ids, results + rs;
      i := i + 1;
    }
    assert chunks[..i] == chunks;
    saved := Some(results);
  }
}
