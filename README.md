# Store locator: admin collection, CSV codec, search and Places scripts

This project is a Dafny model of the logic underneath a store-locator web site for a chain of retail stores, together with proofs about that model.

The site's store-admin page keeps the store list in component state. Through a form, an operator can:

- add, edit and delete stores;
- derive a URL slug from a store's name;
- type the nearby areas (tags) as a comma-separated list;
- export the whole list as CSV and import a CSV file to replace it.

The store-locator page filters the stores by a search text and picks the URL of an embedded map.

Two maintenance scripts talk to the Places web service:

- One reads the store data file. It cuts the store array into object chunks, pulls each store's name, address and city out of its chunk, and looks each store up twice. It then saves the stores that were found.
- The other builds a report of up to ten photo URLs for one fixed store.

Modules, following the program's structure:

| module | models |
|---|---|
| `StoreModel` | the `Store` record, the form's partial record `Form`, the form defaults, the `{...store, ...form}` merge and the `x \|\| fallback` default |
| `Slug` | `generateSlug`: lower-case, drop unsafe characters, whitespace runs to `-`, dash runs to one `-`, trim |
| `Tags` | the tag field: split on `,`, trim, drop empties; and the `join(', ')` display |
| `IntText` | `String(id)` and JavaScript's `parseInt` (leading whitespace, sign, `0x` prefix, longest digit prefix, `NaN \|\| 0`) |
| `CsvExport` | the header line and the 15-field rows |
| `CsvImport` | the import: the row tokeniser regex as an explicit scanner, quote stripping, the defaults, and the skipping of the header and of blank lines |
| `CsvRoundTrip` | export followed by import |
| `StoreCollection` | add (id `max + 1`), update by id and delete by id, as functions on the store sequence |
| `AdminPanel` | the page state as a class `StoreAdminPage` whose methods are the event handlers; the import loop as a method |
| `StoreLocator` | the search filter and `getMapUrl` |
| `StorePlaces` | the three extraction regexes, the lookup query, the two lookups' success conditions, and the `processStores` loop |
| `StorePhotos` | the photo URL list and the report of `fetchStorePhotos` |
| `Strings`, `Seqs`, `Wrappers` | JavaScript string operations (`trim`, `split`, `join`, ASCII `toLowerCase`, `includes`, `indexOf`), `filter` and `flatMap` on sequences, and `Option` |

The web service is never called. Each HTTP lookup is a function parameter that returns the parsed response, or `None` where the request or the JSON parsing fails (the scripts catch that and go on). The data file's text is a parameter of `ProcessStores`. The imported file's text is a parameter of `ImportCsv`. The clock reading stored in the photo report is a parameter. `encodeURIComponent` is an uninterpreted function parameter.

The CSV round trip holds under these preconditions (`CsvRoundTrip.Exportable`):

- the unquoted fields (slug, city, state, pincode, phone, email and the coordinates) are non-empty and free of whitespace, `,` and `"`;
- the quoted fields contain no `"` and no line break;
- no tag is empty or contains `;`.

Under them, importing an export gives back every store in order, up to `CsvRoundTrip.Normalized`. Normalisation makes the optional fields present, with an absent one as `""`, and drops the photos, since the CSV has no photo column. The source's store record also has an optional `description` and an optional `featuredProducts` list. The CSV has no column for either, so a real store loses both in the round trip as well (see "## Left out").

Two lemmas show what goes wrong without those preconditions. `CsvImport.EmptyFieldShifts`: an empty unquoted field produces no token, so the later columns move one place left. `CsvImport.OnlyLastWord`: of an unquoted value with a space in it, only the last word survives.

## Model

| member | source | states |
|---|---|---|
| StoreModel.OrElse | src/app/admin/stores/page.tsx:115-128 | `v \|\| fallback` on an optional string gives the value when it is present and non-empty, and the fallback when it is absent or empty |
| StoreModel.BlankForm | src/app/admin/stores/page.tsx:17-33 | the initial form: empty texts, state `Karnataka`, coordinates `0`, no tags, workingHours `10 AM to 10 PM`, no photos; `StoreModel.CancelledForm` relates it to the Cancel reset |
| StoreModel.FormOf | src/app/admin/stores/page.tsx:155 | `setFormData(store)`: the form holds every property of the store; `StoreModel.MergeFormOf` states that merging it back gives the store |
| StoreModel.Merge | src/app/admin/stores/page.tsx:108 | `{...store, ...form}`: each property the form has overrides the store's; `StoreModel.MergeFormOf` and `StoreModel.MergeAfterInput` state its properties |
| StoreModel.SetField | src/app/admin/stores/page.tsx:35-38 | `{...prev, [name]: value}` for one of the 13 text inputs; `StoreModel.MergeAfterInput` and `AdminPanel.StoreAdminPage.ChangeInput` state its effect |
| StoreModel.CancelledForm | src/app/admin/stores/page.tsx:833-848 | the form the Cancel button restores is the reset form of the submit handler, except that it has no `photos` key |
| StoreModel.MergeFormOf | src/app/admin/stores/page.tsx:108 | merging a store with the form loaded from it (`{...store, ...store}`) gives the store back unchanged |
| StoreModel.MergeAfterInput | src/app/admin/stores/page.tsx:35-38 | after one input change to a form loaded from a store, the merge carries the new value in that field and the store's values in every other field, id, tags and photos |
| Slug.Slug | src/app/admin/stores/page.tsx:45-52 | the `generateSlug` pipeline: lower-case, drop unsafe characters, whitespace runs to `-`, dash runs to `-`, trim; see `Slug.SlugIsUrlSafe`, `Slug.SlugOfSlug` and `Slug.SlugIdempotent` |
| Slug.KeepSlugSource | src/app/admin/stores/page.tsx:48 | `replace(/[^a-z0-9\s-]/g, '')` leaves only `[a-z0-9-]` and whitespace, and leaves a string already made of slug characters unchanged |
| Slug.ReplaceRuns | src/app/admin/stores/page.tsx:49-50 | replacing each maximal run of matching characters by one character: empty exactly when the input is; the first character is the replacement or the original; every character is the replacement or a non-matching character of the input |
| Slug.CollapsedNoDoubleDash | src/app/admin/stores/page.tsx:50 | after `replace(/-+/g, '-')` no two `-` are adjacent |
| Slug.ReplaceRunsFixed | src/app/admin/stores/page.tsx:49-50 | a string whose matching characters are all the replacement, with none adjacent, is left unchanged by the run replacement |
| Slug.SlugIsUrlSafe | src/app/admin/stores/page.tsx:45-52 | `generateSlug` output contains only `[a-z0-9-]` and never two consecutive `-` |
| Slug.DashedIsSlug | src/app/admin/stores/page.tsx:49 | replacing whitespace runs by `-` in text of slug characters and whitespace leaves only slug characters |
| Slug.CollapsedIsSlug | src/app/admin/stores/page.tsx:50 | collapsing dash runs keeps a string within the slug characters |
| Slug.SlugCharsTrimmed | src/app/admin/stores/page.tsx:51 | the final `trim()` changes nothing, since a slug holds no whitespace (leading and trailing `-` stay) |
| Slug.SlugOfSlug | src/app/admin/stores/page.tsx:45-52 | a string of slug characters without `--` is its own slug |
| Slug.SlugIdempotent | src/app/admin/stores/page.tsx:45-52 | `generateSlug(generateSlug(s)) == generateSlug(s)` |
| Tags.ParseTags | src/app/admin/stores/page.tsx:41 | `split(',').map(trim).filter(t => t)`; see `Tags.ParseTagsClean`, `Tags.ParseTagsConcat` and `Tags.ParseShowTags` |
| Tags.ShowTags | src/app/admin/stores/page.tsx:654 | the displayed `tags.join(', ')`; `Tags.ParseShowTags` states that parsing it gives back clean tags |
| Tags.TrimNonEmptyFlat | src/app/admin/stores/page.tsx:41 | trimming the pieces and dropping the empty ones is the flat map of "trim, keep when non-empty" over the pieces |
| Tags.TrimPieceClean | src/app/admin/stores/page.tsx:41 | a piece without `,` gives at most one tag, and that tag is non-empty, has no `,` and no surrounding whitespace |
| Tags.TrimNonEmptyClean | src/app/admin/stores/page.tsx:41 | every tag kept from pieces without `,` is non-empty, has no `,` and no surrounding whitespace |
| Tags.TrimNonEmptyConcat | src/app/admin/stores/page.tsx:41 | trimming and filtering distributes over concatenation of the piece lists, so order is kept |
| Tags.ParseTagsClean | src/app/admin/stores/page.tsx:41 | every parsed tag is non-empty, contains no `,` and has no leading or trailing whitespace |
| Tags.ParseTagsConcat | src/app/admin/stores/page.tsx:41 | parsing `a + "," + b` gives the tags of `a` followed by the tags of `b` (order preserved) |
| Tags.ParseTagsLeadingSpace | src/app/admin/stores/page.tsx:41 | a leading space in the field changes no tag |
| Tags.ParseSingleTag | src/app/admin/stores/page.tsx:41 | a clean tag typed alone parses to exactly that tag |
| Tags.ParseNoTags | src/app/admin/stores/page.tsx:41 | the empty field parses to no tags |
| Tags.ParseShowTagsStep | src/app/admin/stores/page.tsx:654 | prepending a clean tag to a list that round-trips through the `join(', ')` display gives a list that round-trips too |
| Tags.ParseShowTags | src/app/admin/stores/page.tsx:654 | re-parsing the displayed `tags.join(', ')` of clean tags gives back the same list |
| Tags.TrailingCommaDropped | src/app/admin/stores/page.tsx:654 | a `,` typed at the end of the tag field parses away, so the re-rendered `tags.join(', ')` is the same as without it |
| IntText.NatToString | src/app/admin/stores/page.tsx:171 | the decimal text of a natural number is non-empty and all digits |
| IntText.IntToString | src/app/admin/stores/page.tsx:171 | the decimal text of an id is non-empty and made of digits and `-` |
| IntText.Magnitude | src/app/admin/stores/page.tsx:218 | the magnitude `parseInt` reads: hexadecimal after a `0x`/`0X` prefix, decimal otherwise, `None` without a leading digit; see `IntText.DigitRun` and `IntText.MagnitudeOfNat` |
| IntText.ParseInt | src/app/admin/stores/page.tsx:218 | `parseInt`: leading whitespace skipped, an optional sign, then the magnitude, `None` for `NaN`; see `IntText.ParseMinus`, `IntText.ParseUnsigned` and `IntText.ParseIntToString` |
| IntText.ParseIntOrZero | src/app/admin/stores/page.tsx:218 | `parseInt(v) \|\| 0`: `NaN` gives 0; `IntText.ParseIntToString` states it gives back an exported id |
| IntText.DigitRun | src/app/admin/stores/page.tsx:218 | `parseInt` reads the longest prefix of digits in the radix, stopping at the first non-digit |
| IntText.NatToStringValue | src/app/admin/stores/page.tsx:171 | the digits written for `n` have the value `n` |
| IntText.MagnitudeOfNat | src/app/admin/stores/page.tsx:218 | the magnitude read back from the decimal text of `n` is `n` |
| IntText.ParseMinus | src/app/admin/stores/page.tsx:218 | a `-` followed by a magnitude `m` parses to `-m` |
| IntText.ParseUnsigned | src/app/admin/stores/page.tsx:218 | text starting with a digit and reading the magnitude `m` parses to `m` |
| IntText.ParseIntToString | src/app/admin/stores/page.tsx:171-218 | `parseInt(String(id))` gives back the id, also behind the `\|\| 0` default |
| CsvExport.Header | src/app/admin/stores/page.tsx:167-169 | `headers.join(',')`; `CsvExport.HeaderLine` states it is one line splitting into the 15 names |
| CsvExport.HeaderNamesPlain | src/app/admin/stores/page.tsx:167 | no header name contains `,` or a line break |
| CsvExport.HeaderLine | src/app/admin/stores/page.tsx:167-169 | the header is one line that splits on `,` into exactly the 15 column names, in order |
| CsvExport.Field | src/app/admin/stores/page.tsx:171-185 | the field written for one column; `CsvExport.RowFields`, `CsvExport.RowQuotedColumns` and `CsvExport.RowMissingOptional` state what each column holds |
| CsvExport.Row | src/app/admin/stores/page.tsx:170-186 | the 15 fields joined with `,`; see `CsvExport.RowSingleLine` and `CsvRoundTrip.RowRoundTrip` |
| CsvExport.ExportCsv | src/app/admin/stores/page.tsx:166-187 | the header and the rows joined with `\n`; `CsvExport.ExportLines` and `CsvRoundTrip.ExportImportRoundTrip` state its properties |
| CsvExport.Quote | src/app/admin/stores/page.tsx:172 | a quoted field is the value with one `"` before and one after |
| CsvExport.RowFields | src/app/admin/stores/page.tsx:170-186 | a row has exactly 15 fields, column by column as the export writes them |
| CsvExport.RowQuotedColumns | src/app/admin/stores/page.tsx:172-185 | name, address, tags, workingHours, openedDate and placeId are wrapped in `"`, and the tags are joined with `;` |
| CsvExport.RowMissingOptional | src/app/admin/stores/page.tsx:183-185 | a missing or empty workingHours, openedDate or placeId exports as `""` |
| CsvExport.Rows | src/app/admin/stores/page.tsx:170 | one row per store, in list order |
| CsvExport.RowSingleLine | src/app/admin/stores/page.tsx:170-186 | a store with no line break in its fields exports as one line |
| CsvExport.LinesOfJoin | src/app/admin/stores/page.tsx:168-187 | joining single-line header and rows with `\n` and splitting again gives back the header and the rows |
| CsvExport.ExportLines | src/app/admin/stores/page.tsx:166-187 | the export's lines are exactly the header followed by one row per store in list order: store count plus one lines |
| CsvImport.BareRun | src/app/admin/stores/page.tsx:214 | an unquoted token is the maximal run without `"`, `,` or whitespace |
| CsvImport.QuoteClose | src/app/admin/stores/page.tsx:214 | the lazy `".*?"` with its lookahead: the result is a `"` followed by optional whitespace and then `,` or the end; no line break and no earlier such `"` comes before it; when there is none, every such `"` has a line break before it |
| CsvImport.Tokens | src/app/admin/stores/page.tsx:214 | every token the scanner returns is a quoted token or a non-empty unquoted run, as the regex matches them |
| CsvImport.StripQuotes | src/app/admin/stores/page.tsx:215 | `replace(/^"\|"$/g, '')` removes one leading and one trailing `"` when present, and nothing else |
| CsvImport.Cells | src/app/admin/stores/page.tsx:214-215 | the cleaned values are the row's tokens with the quotes stripped, in order |
| CsvImport.Cell | src/app/admin/stores/page.tsx:218-232 | a missing value reads as the empty string |
| CsvImport.SplitTags | src/app/admin/stores/page.tsx:229 | the imported tags are the `;`-separated pieces with empties dropped, so none is empty or contains `;` |
| CsvImport.ParseRow | src/app/admin/stores/page.tsx:217-233 | an imported store always has workingHours, openedDate and placeId (possibly empty), no photos, clean tags and a coordinate text |
| CsvImport.StoreOfCells | src/app/admin/stores/page.tsx:217-233 | the store built from the cleaned values always has its optional texts and a non-empty coordinate text |
| CsvImport.MissingCellsDefault | src/app/admin/stores/page.tsx:218-232 | each of the 15 columns a short row lacks takes its default: id 0; name, slug, address, city, state, pincode, phone and email empty; coordinates `0`; no tags; workingHours, openedDate and placeId empty |
| CsvImport.BlankIsTrimmedEmpty | src/app/admin/stores/page.tsx:212 | a line is skipped exactly when its `trim()` is empty |
| CsvImport.ParseLines | src/app/admin/stores/page.tsx:211-236 | the stores of a run of lines, blank lines skipped; see `CsvImport.ParseLinesConcat`, `CsvImport.ParseLinesCount` and `AdminPanel.ReadStores` |
| CsvImport.ImportCsv | src/app/admin/stores/page.tsx:207-236 | split on `\n`, drop line 0, parse the rest; see `CsvImport.ImportIgnoresHeader` and `CsvRoundTrip.ExportImportRoundTrip` |
| CsvImport.LineStores | src/app/admin/stores/page.tsx:211-236 | a line yields no store when blank and exactly one otherwise |
| CsvImport.ParseNextLine | src/app/admin/stores/page.tsx:211-236 | one pass of the loop appends the line's store, if any, to those already imported |
| CsvImport.ParseLinesConcat | src/app/admin/stores/page.tsx:211-236 | the stores of two runs of lines are the stores of the first followed by those of the second |
| CsvImport.ParseLinesSnoc | src/app/admin/stores/page.tsx:211-236 | adding one line at the end adds that line's store at the end |
| CsvImport.ParseLinesCount | src/app/admin/stores/page.tsx:211-236 | the number of imported stores equals the number of non-blank lines |
| CsvImport.ParseBlankLines | src/app/admin/stores/page.tsx:212 | lines that are all blank import nothing |
| CsvImport.ImportIgnoresHeader | src/app/admin/stores/page.tsx:207-211 | whatever the first line holds, the import is the stores of the lines after it |
| CsvImport.BareToken | src/app/admin/stores/page.tsx:214 | a maximal unquoted run followed by optional whitespace and then `,` or the end is one token |
| CsvImport.BareRunPrefix | src/app/admin/stores/page.tsx:214 | the unquoted run of a run followed by a non-bare character is exactly that run |
| CsvImport.BareNotFollowed | src/app/admin/stores/page.tsx:214 | an unquoted run not followed by `,` or the end yields no token from its first character |
| CsvImport.OnlyLastWord | src/app/admin/stores/page.tsx:214 | of an unquoted value `a b`, only `b` becomes a token |
| CsvImport.EmptyFieldShifts | src/app/admin/stores/page.tsx:214 | `x,,y` yields the two tokens `x` and `y`: the empty field gives no token and later columns shift left |
| CsvImport.TokensSkipCommas | src/app/admin/stores/page.tsx:214 | two leading commas produce no token |
| CsvImport.TokensSkipComma | src/app/admin/stores/page.tsx:214 | a leading comma produces no token |
| CsvRoundTrip.Normalized | src/app/admin/stores/page.tsx:183-185 | the store as the CSV can carry it: id, name and tags unchanged, the optional texts present, no photos |
| CsvRoundTrip.NormalizedAll | src/app/admin/stores/page.tsx:170 | normalisation store by store, in order |
| CsvRoundTrip.QuoteCloseScan | src/app/admin/stores/page.tsx:214 | in a quoted token without inner `"`, the scanner closes it at its own closing quote |
| CsvRoundTrip.TokenThen | src/app/admin/stores/page.tsx:214 | a well-formed exported field followed by `,` or the end is exactly one token |
| CsvRoundTrip.TokensOfJoin | src/app/admin/stores/page.tsx:186-214 | the tokens of well-formed fields joined with `,` are exactly those fields |
| CsvRoundTrip.QuotedWellFormed | src/app/admin/stores/page.tsx:172-215 | a quoted value without `"` or line break is one token, and stripping gives back the value |
| CsvRoundTrip.BareStripped | src/app/admin/stores/page.tsx:173-215 | a safe unquoted value is one token, left unchanged by stripping |
| CsvRoundTrip.IdBareSafe | src/app/admin/stores/page.tsx:171 | the exported id text is a safe unquoted field |
| CsvRoundTrip.TagsJoinSafe | src/app/admin/stores/page.tsx:182 | safe tags joined with `;` form a safe quoted value |
| CsvRoundTrip.ExpectedCells | src/app/admin/stores/page.tsx:170-186 | the 15 cleaned values that an exported store should give back |
| CsvRoundTrip.FieldClean | src/app/admin/stores/page.tsx:170-215 | each exported field of an exportable store is one token whose stripped value is the expected cell |
| CsvRoundTrip.RowFieldsClean | src/app/admin/stores/page.tsx:170-215 | all 15 exported fields of an exportable store are well formed and strip to the expected cells |
| CsvRoundTrip.RowCells | src/app/admin/stores/page.tsx:170-215 | importing an exported row gives back exactly the expected 15 values |
| CsvRoundTrip.TagsRoundTrip | src/app/admin/stores/page.tsx:182-229 | splitting `tags.join(';')` on `;` and dropping empties gives back safe tags |
| CsvRoundTrip.RowNotBlank | src/app/admin/stores/page.tsx:170-212 | an exported row is never skipped as blank |
| CsvRoundTrip.StoreOfExpectedCells | src/app/admin/stores/page.tsx:217-233 | building a store from the expected values gives the normalised store |
| CsvRoundTrip.RowRoundTrip | src/app/admin/stores/page.tsx:170-233 | an exported row imports as exactly the normalised store |
| CsvRoundTrip.ExportableSingleLine | src/app/admin/stores/page.tsx:170-186 | an exportable store exports as one line |
| CsvRoundTrip.ParseRows | src/app/admin/stores/page.tsx:170-236 | the rows of exportable stores import as the normalised stores, in order |
| CsvRoundTrip.ExportImportRoundTrip | src/app/admin/stores/page.tsx:166-238 | importing the export of exportable stores gives back every store, in order, with its id and text fields |
| StoreCollection.MaxId | src/app/admin/stores/page.tsx:114 | `Math.max` of the ids of a non-empty list is an id of the list and at least every id |
| StoreCollection.NewStore | src/app/admin/stores/page.tsx:113-129 | the new id is `Math.max` of the ids plus one, so greater than every existing id; name, address, city, pincode, phone and email are the form's text or `''`; the coordinates are the form's or `0`; an empty slug becomes the name's slug, otherwise the form's slug; an empty state becomes `Karnataka`, otherwise the form's; an empty workingHours becomes `10 AM to 10 PM`, otherwise the form's; tags are the form's or `[]`; openedDate and placeId are the form's text or `''`; the form's photos are not carried |
| StoreCollection.Added | src/app/admin/stores/page.tsx:130 | the new store is appended at the end and the earlier records are unchanged |
| StoreCollection.Updated | src/app/admin/stores/page.tsx:107-109 | length and order are kept; a record whose id is the edited store's becomes the merge `{...editingStore, ...formData}`, and every other record is unchanged |
| StoreCollection.Deleted | src/app/admin/stores/page.tsx:162 | no record with the id remains, and every other record is kept, in order and with its multiplicity |
| StoreCollection.AddKeepsUnique | src/app/admin/stores/page.tsx:113-130 | adding to a list with unique ids keeps the ids unique |
| StoreCollection.AppendFresh | src/app/admin/stores/page.tsx:130 | appending a store whose id exceeds every id keeps the ids unique |
| StoreCollection.UpdatePreservesIds | src/app/admin/stores/page.tsx:107-109 | an update whose form keeps the edited id leaves every id in place, so unique ids stay unique |
| StoreCollection.Submitted | src/app/admin/stores/page.tsx:102-132 | the update when a store is being edited, otherwise the addition; `StoreCollection.SubmitKeepsUnique` and `AdminPanel.StoreAdminPage.Submit` state its properties |
| StoreCollection.SubmitKeepsUnique | src/app/admin/stores/page.tsx:102-132 | the submit handler, adding or updating, keeps the ids unique, for a form that keeps the edited id when updating |
| StoreCollection.UpdateUntouched | src/app/admin/stores/page.tsx:107-109 | submitting an edit without changing the form leaves the list unchanged |
| StoreCollection.DeleteAbsent | src/app/admin/stores/page.tsx:162 | deleting an id no record has changes nothing |
| StoreCollection.DeletePreservesUnique | src/app/admin/stores/page.tsx:162 | deleting keeps the ids unique |
| StoreCollection.SubsequenceUnique | src/app/admin/stores/page.tsx:162 | a list kept in order from a list with unique ids has unique ids |
| StoreCollection.SubsequenceMembers | src/app/admin/stores/page.tsx:162 | every record kept in order from a list is in that list |
| AdminPanel.StoreAdminPage.constructor | src/app/admin/stores/page.tsx:9-33 | the page starts with the given stores, the form closed, nothing being edited and the blank form |
| AdminPanel.StoreAdminPage.ToggleAdding | src/app/admin/stores/page.tsx:317 | the add button flips whether the form is open and changes nothing else |
| AdminPanel.StoreAdminPage.ChangeInput | src/app/admin/stores/page.tsx:35-38 | an input change sets the one form property named by the input and changes nothing else |
| AdminPanel.StoreAdminPage.ChangeTags | src/app/admin/stores/page.tsx:40-43 | the tag field sets the form's tags to the parsed list and changes nothing else |
| AdminPanel.StoreAdminPage.Edit | src/app/admin/stores/page.tsx:154-158 | editing a store records it, loads it into the form and opens the form; the list is unchanged |
| AdminPanel.StoreAdminPage.Cancel | src/app/admin/stores/page.tsx:830-848 | cancel closes the form, clears the edited store and restores the default form; the list is unchanged |
| AdminPanel.StoreAdminPage.Submit | src/app/admin/stores/page.tsx:102-152 | the list becomes the update or the addition; adding closes the form and updating leaves it as it was; the edited store is cleared and the form reset to the defaults |
| AdminPanel.StoreAdminPage.Delete | src/app/admin/stores/page.tsx:160-164 | when confirmed, the list becomes the deletion (unique ids stay unique); otherwise nothing changes |
| AdminPanel.StoreAdminPage.ExportCsv | src/app/admin/stores/page.tsx:166-187 | the exported text is the CSV of the current list |
| AdminPanel.StoreAdminPage.ImportCsv | src/app/admin/stores/page.tsx:200-238 | with no file nothing changes; otherwise the list is replaced by the imported stores, one per non-blank line after the first |
| AdminPanel.ReadStores | src/app/admin/stores/page.tsx:207-236 | the loop over the lines after the first pushes one store per non-blank line, giving the import of the text |
| StoreLocator.FilterStores | src/app/store-locator-map/page.tsx:16-21 | the result is an order-preserving subsequence, holding exactly the stores whose lower-cased name, city, address or some tag contains the lower-cased query, each as often as in the list |
| StoreLocator.EmptyQueryKeepsAll | src/app/store-locator-map/page.tsx:16-21 | the empty query returns every store in order |
| StoreLocator.CaseInsensitive | src/app/store-locator-map/page.tsx:17-20 | queries equal up to ASCII case select the same stores |
| StoreLocator.LowerQuery | src/app/store-locator-map/page.tsx:17-20 | lower-casing the query does not change the result |
| StoreLocator.MatchesWeaker | src/app/store-locator-map/page.tsx:16-21 | a store matching a query matches every substring of it |
| StoreLocator.ExtendingQueryNarrows | src/app/store-locator-map/page.tsx:16-21 | extending the query never adds stores: the longer query's result is the shorter one's result filtered again, and a subsequence of it |
| StoreLocator.MapUrl | src/app/store-locator-map/page.tsx:24-33 | with no selection the fixed `view` URL centred at 12.9716,77.5946 with zoom 10; with a selection the `place` URL with the encoded address and zoom 15; the key defaults to empty |
| StoreLocator.MapUrlModes | src/app/store-locator-map/page.tsx:27-32 | the URL is a `place` URL exactly when a store is selected and a `view` URL exactly when none is |
| StoreLocator.PlaceUrlCarriesAddress | src/app/store-locator-map/page.tsx:28 | two place URLs under the same key are equal only when the encoded addresses are |
| StorePlaces.ExtractArray | scripts/fetch-store-places.js:69-73 | the capture starts right after the first array opening and ends at the first `];` after it, holding no `];`; when there is none, no `];` follows any array opening |
| StorePlaces.CaptureShape | scripts/fetch-store-places.js:69 | the text between an opening and the first `];` after it is a valid lazy capture |
| StorePlaces.OccursContains | scripts/fetch-store-places.js:69 | text found at a position is contained in the string |
| StorePlaces.NextChunk | scripts/fetch-store-places.js:79 | the next chunk starts at the first `{` and ends at the first `},` after it; there is none exactly when no `},` follows any `{` |
| StorePlaces.OpenAt | scripts/fetch-store-places.js:79 | a `{` occurs at a position exactly when that character is `{` |
| StorePlaces.ChunkAtShape | scripts/fetch-store-places.js:79 | a chunk starts with `{`, ends with its first `},`, and no `{` is skipped before it |
| StorePlaces.ChunkSpans | scripts/fetch-store-places.js:79 | the spans of the successive chunk matches from a position; see `StorePlaces.ChunkSpansMatch`, `StorePlaces.ChunkSpansMaximal` and `StorePlaces.ChunkSpansOrdered` |
| StorePlaces.ChunkSpansMatch | scripts/fetch-store-places.js:79 | the chunks are the successive matches of `/\{[\s\S]*?\},/g`, each scan resuming after the last match |
| StorePlaces.ChunkSpansMaximal | scripts/fetch-store-places.js:79 | after the last chunk no `},` follows any `{`: a final object without `},` yields no chunk |
| StorePlaces.ChunkSpansOrdered | scripts/fetch-store-places.js:79 | chunks lie within the text, do not overlap, and appear in source order |
| StorePlaces.Chunks | scripts/fetch-store-places.js:79 | one chunk text per match |
| StorePlaces.ChunkTextShape | scripts/fetch-store-places.js:79 | a chunk's text starts with `{`, ends with `},`, and contains no earlier `},` |
| StorePlaces.ChunksShape | scripts/fetch-store-places.js:79 | every extracted chunk starts with `{` and ends with its first `},` |
| StorePlaces.SkipSpaces | scripts/fetch-store-places.js:90-92 | `\s*` stops at the first non-whitespace character |
| StorePlaces.MatchAt | scripts/fetch-store-places.js:90-92 | a field match at a position starts with the key, and its capture is non-empty and free of `"` |
| StorePlaces.MatchFrom | scripts/fetch-store-places.js:90-92 | the search finds the first position with a field match, or reports that there is none |
| StorePlaces.Field | scripts/fetch-store-places.js:90-92 | a field value is the first match of its key, non-empty and free of `"`; it is missing exactly when the key never matches |
| StorePlaces.StoreFields | scripts/fetch-store-places.js:90-97 | a chunk is well formed exactly when name, address and city all match, and then gives those three values |
| StorePlaces.Query | scripts/fetch-store-places.js:24 | the lookup text `${name}, ${address}, ${city}`; `StorePlaces.QueryParts` states it splits back into the three parts |
| StorePlaces.QueryParts | scripts/fetch-store-places.js:24 | for name, address and city without `,`, splitting the query on `,` gives back exactly `[name, " " + address, " " + city]`: the three parts in order, each after its `, ` separator |
| StorePlaces.FoundPlace | scripts/fetch-store-places.js:31-42 | a place is found exactly when the request succeeded, the status is `OK` and there is a candidate; it is the first candidate |
| StorePlaces.PlaceDetails | scripts/fetch-store-places.js:52-58 | details are used only with status `OK`, and then they are the response's result |
| StorePlaces.ChunkQueries | scripts/fetch-store-places.js:94-102 | a chunk makes one lookup when it is well formed and none otherwise |
| StorePlaces.ChunkResult | scripts/fetch-store-places.js:94-121 | a chunk gives a result exactly when it is well formed, the place is found with a place id and the details succeed; the result carries the extracted name and the found place id |
| StorePlaces.ChunkResults | scripts/fetch-store-places.js:94-121 | a chunk adds at most as many results as lookups |
| StorePlaces.Queries | scripts/fetch-store-places.js:85-102 | the lookup texts the loop sends, chunk by chunk; see `StorePlaces.QueriesOfWellFormed`, `StorePlaces.ResultsBound` and `StorePlaces.ProcessStores` |
| StorePlaces.DetailIds | scripts/fetch-store-places.js:104-108 | the place ids whose details the loop requests, chunk by chunk; `StorePlaces.ProcessStores` states the loop makes exactly these |
| StorePlaces.Results | scripts/fetch-store-places.js:85-130 | the saved results, chunk by chunk; see `StorePlaces.ResultsConcat`, `StorePlaces.ResultsFromChunks` and `StorePlaces.ProcessStores` |
| StorePlaces.WellFormed | scripts/fetch-store-places.js:90-97 | the chunks whose name, address and city all match, in order; `StorePlaces.QueriesOfWellFormed` relates the lookups to them |
| StorePlaces.QueriesOfWellFormed | scripts/fetch-store-places.js:94-102 | the lookups are exactly one per well-formed chunk, in chunk order, with that chunk's query |
| StorePlaces.ResultsBound | scripts/fetch-store-places.js:94-121 | results number at most the lookups, which number at most the chunks |
| StorePlaces.ResultsConcat | scripts/fetch-store-places.js:85-130 | the results of two runs of chunks are those of the first followed by those of the second: a failed store does not stop the loop |
| StorePlaces.ResultsFromChunks | scripts/fetch-store-places.js:104-121 | every saved result is the result of one of the chunks |
| StorePlaces.ProcessStep | scripts/fetch-store-places.js:86-128 | one pass of the loop appends the chunk's lookups and result to those so far |
| StorePlaces.ProcessChunk | scripts/fetch-store-places.js:87-128 | the loop body for one chunk makes that chunk's lookups and pushes its result, if any |
| StorePlaces.ProcessStores | scripts/fetch-store-places.js:62-134 | without the array literal nothing is looked up and nothing is saved; otherwise the saved results, the queries and the detail lookups are those of the chunks, in order |
| StorePhotos.PhotoUrl | scripts/fetch-store-photos.js:42 | the photo URL template with `maxwidth=1200`, the reference and the key; see `StorePhotos.PhotoUrlInjective` and `StorePhotos.PhotoUrls` |
| StorePhotos.PhotoUrlInjective | scripts/fetch-store-photos.js:42 | under one key, different references give different photo URLs |
| StorePhotos.Kept | scripts/fetch-store-photos.js:39 | `slice(0, 10)` keeps the first `min(10, n)` photos in order |
| StorePhotos.PhotoUrls | scripts/fetch-store-photos.js:39-49 | one URL per kept photo, in order: the template with `maxwidth=1200`, the photo's reference and the key |
| StorePhotos.References | scripts/fetch-store-photos.js:59-64 | one reference entry per kept photo, in order, copying its reference, width, height and attributions |
| StorePhotos.FetchStorePhotos | scripts/fetch-store-photos.js:21-95 | a report exists exactly when the status is `OK`, a result is present, there is at least one photo and every kept photo has a reference; its store fields are the fixed store's; the photo count equals the number of URLs and of references, `min(10, n)`; the i-th URL and reference come from the i-th photo |
| StorePhotos.ReportLinesUp | scripts/fetch-store-photos.js:57-64 | the i-th reference of a report is the one in the i-th URL |
| Strings.TrimStart | src/app/admin/stores/page.tsx:41 | removes exactly the leading whitespace |
| Strings.TrimEnd | src/app/admin/stores/page.tsx:41 | removes exactly the trailing whitespace |
| Strings.Trim | src/app/admin/stores/page.tsx:41 | the result neither starts nor ends with whitespace; it is empty exactly when the input is all whitespace; text without surrounding whitespace is unchanged |
| Strings.Split | src/app/admin/stores/page.tsx:207 | `split` gives at least one piece, none containing the separator, and joining them back gives the input |
| Strings.Lower | src/app/store-locator-map/page.tsx:17 | ASCII `toLowerCase`, character by character |
| Strings.LowerIdempotent | src/app/store-locator-map/page.tsx:17 | lower-casing twice is lower-casing once |
| Strings.IndexFrom | scripts/fetch-store-places.js:69-79 | the lazy regex search finds the first occurrence from a position, or none exists |

## Left out

- The page markup, the inline styles, the hover handlers and the routing links are not modelled. They hold no stated behaviour.
- The store detail page and the site layout are not part of this model.
- The store record's optional `description` and `featuredProducts` fields are not modelled, because only the store detail page reads them. In the source, the update merge `{...editingStore, ...formData}` keeps both, while add creates a store without them. The CSV export writes neither, so an import drops both. `CsvRoundTrip.ExportImportRoundTrip` is therefore stated for the modelled fields only.
- The layout's remote settings fetch is not part of this model either.
- The admin page's photo fetch (`handleFetchPhotos`) is not modelled. It calls the site's own API route and only sets the form's photos and a status text.
- The HTTP calls are not executed. Each lookup is a parameter that returns the parsed response or `None`.
- The vendor response fields that the code only copies are kept as opaque text: rating, review count, URL, sizes and attributions.
- The scripts' API-key check and exit (`scripts/fetch-store-places.js:12-18`, `scripts/fetch-store-photos.js:5-11`) are not modelled. The key is a parameter.
- File-system and browser I/O are not modelled:
  - reading and writing files, `FileReader`, `Blob`, object URLs and the download link;
  - `confirm` (a boolean parameter of `Delete`) and `alert`;
  - all console logging.
- Timing is not modelled: the 200 ms delay between lookups, the status-clear timeout and the timestamped export file name.
- The photo report's `new Date().toISOString()` is modelled as the `fetchedAt` parameter.
- Coordinates are kept as their text rather than as floating-point numbers:
  - `parseFloat(...) || 0` on import keeps the cell's text, or `"0"` when the cell is missing or empty, and does not convert it;
  - the `placeData.lat || details...lat` fallback in the places script is modelled only for absent values, not for a zero coordinate.
- `encodeURIComponent` is an uninterpreted function parameter.
- `toLowerCase` maps ASCII letters only. Non-ASCII case mapping is not modelled.
- `Math.max` of an empty id list (`-Infinity`) is not modelled. Adding requires a non-empty list, as `StoreCollection.NewStore`, `StoreCollection.Added` and `AdminPanel.StoreAdminPage.Submit` state.
- `parseInt` is exact on unbounded integers. JavaScript's loss of precision above 2^53 is not modelled. `String(id)` in JavaScript writes ids of 1e21 or more in exponent notation, and `IntText.IntToString` does not model that: it always writes plain decimal digits.
- The form's HTML validation is not modelled: the `required` attributes on name, address, city, state, pincode, phone, email and the coordinates, and `type="number"` on the coordinates. `AdminPanel.StoreAdminPage.Submit` accepts every form, including those the browser blocks, such as an empty name, which the `||` defaults turn into `''`. The proved properties hold for this larger set as well.
- React's batching and asynchronous state updates are not modelled. Each handler is one atomic transition of `StoreAdminPage`.
- The store-locator page's selection state is not modelled. The selected store is a parameter of `MapUrl`.
- StorePhotos.FetchStorePhotos: a kept photo without a `photo_reference` makes the script throw while logging, and it then returns null. The model gives `None` for that case and does not distinguish it from the other null results.
- AdminPanel.StoreAdminPage.Submit: the method's contract does not itself state that unique ids stay unique. `StoreCollection.SubmitKeepsUnique` states that about the new list, for a form that keeps the edited id.
