# SOY-brackets template index, in Dafny

SOY-brackets is an editor plugin for Closure Templates (SOY) files. When the cursor is on a
`{call .name}`, the plugin opens an inline editor showing the definition of the called
template. This project models the indexing core behind that feature and proves properties of
the model:

- **The marker scanner** (`Scanner`). It finds the file's first `{namespace …}` declaration and
  every `{template …}` marker. Each marker's start offset is filed under the namespace
  concatenated with the trimmed template name.
- **The block-end resolver** (`BlockEnd`). Starting from a marker, it walks the soy mode's
  tokens line by line. It stops right after the first keyword-styled `{/template` token, or at
  the end of the text.
- **Range computation** (`Ranges`). This is lazy: a marker's end offset and line range are
  worked out only when a query asks for that name, and are stored back on the shared marker
  record.
- **The change-aware cache** (`SoyUtils`). Each file's table is kept together with the
  timestamp of the document it was built from. It is consulted through the change tracker, the
  open document's dirty flag and the file's modification time, and is rebuilt wholesale when
  it is stale.
- **The two queries** (`SoyUtils`):
  - `findMatchingTemplates` sweeps a list of files and lists the line ranges of every template
    filed under exactly one name.
  - `findAllMatchingTemplatesInText` lists the templates of one text, by name or for the `"*"`
    wildcard.
- **The call site** (`CallSite`). This reads the called name off the cursor line's tokens and
  qualifies a relative name with the document's namespace. It also covers the guards that
  decide whether an inline editor is offered.

Stateful parts are classes, and their methods are proved against value-level specification
functions:
- the shared global template expression with its `lastIndex` (`TemplateRegExp`);
- the marker records (`TemplateRecord`), which the queries memoise into;
- the module state (`SoyIndex`: the cache and the change tracker).

The rest is functions and lemmas. The soy mode of CodeMirror is a parameter (`Mode`): a
tokenizer oracle that consumes at least one character per call. The host services one query
consults are an immutable snapshot (`Host`): the documents, the dirty open documents, and the
modification times.

Where the plugin's documented design and its code differ, the model follows the code:
- **A file with no namespace declaration.** Its names are prefixed with `"null"`, not with an
  empty string. The namespace variable is the `null` that `exec` returned
  (`Scanner.NoNamespaceMeansNull`).
- **Changed is false and there is no cache.** The file is rebuilt, not served: `!isChanged &&
  fileInfo.SOYUtils` is `undefined`. A failed `stat` rejects the file; it does not rebuild it.
- **The `"*"` wildcard.** It exists only in `findAllMatchingTemplatesInText`. The cross-file
  query looks the name up as an exact own key (`SoyUtils.RowPathsNeedExactKey`).
- **Result order.** The source pushes entries and ranges in the order its asynchronous steps
  complete. The model runs those steps one after the other, in input order (see Left out).

## Model

| member | source | states |
|---|---|---|
| JsText.Trim | SOYUtils.js:47 | `trim()` leaves no white space at either end and never lengthens the string |
| JsText.TrimIsInfix | SOYUtils.js:51 | `trim()` removes a run of white space at the front and one at the back, and nothing else: the result is the infix between them |
| JsText.LineEnd | SOYUtils.js:85-89 | the end of the line starting at `from` is the first newline at or after it, or the text length when there is none; no newline lies in between |
| JsText.LineOfMonotone | SOYUtils.js:141-142 | a later offset never lies on an earlier line |
| JsText.FileExtension | SOYUtils.js:338 | a non-empty extension is the tail of the path after a `.`, with no `.` or `/` in it, so the text after the last `.` of the last segment; an empty one means the path ends with `.` or every `.` has a `/` after it (no `.` in the last segment). Together these fix the extension of every path |
| Scanner.RunLengthMaximal | SOYUtils.js:31 | a `+` run of the expression is greedy: every character it covers belongs to the class, and the next one does not |
| Scanner.TemplateAt | SOYUtils.js:31 | a template match at `i` starts at `i` and spans `{template ` plus at least two characters, within the text |
| Scanner.NamespaceAt | SOYUtils.js:44 | a namespace match at `i` starts at `i` and spans `{namespace `, at least two name characters and the closing `}` |
| Scanner.TemplateAtExactly | SOYUtils.js:31 | the template expression matches at `i` exactly when `{template ` is followed by a head character and a name character; the capture is then the head character and the whole greedy run of name characters, and the match ends where that run ends |
| Scanner.NamespaceAtNeedsOpen | SOYUtils.js:44 | the namespace expression matches only where `{namespace ` and a head character stand |
| Scanner.NamespaceAtExactly | SOYUtils.js:44 | after `{namespace ` and a head character, the expression matches exactly when the following run of non-space characters holds a `}` after its first character; the capture then ends just before the last such `}`, and no `}` follows it within the run |
| Scanner.SearchIsLeftmost | SOYUtils.js:46 | `exec` reports the leftmost match: no position before the one found matches |
| Scanner.SearchReaches | SOYUtils.js:50 | if some position from `from` on matches, `exec` finds a match no later than it |
| Scanner.SearchFinds | SOYUtils.js:50 | the first matching position from `from` on is exactly the one `exec` reports |
| Scanner.NextTemplate | SOYUtils.js:50 | a match found from `lastIndex` lies at or after it and ends after it starts |
| Scanner.TemplateMatchesOrdered | SOYUtils.js:50-59 | the `exec` loop reports genuine matches, at or after the start, in increasing and non-overlapping order |
| Scanner.TemplateMatchesComplete | SOYUtils.js:50-59 | every position where a template match begins, and which no reported match covers, is itself reported |
| Scanner.TemplateDeclared | SOYUtils.js:31 | `{template name` with a well-formed name of two or more characters, followed by a non-name character, matches with exactly that name captured |
| Scanner.SingleCharNameNeverMatches | SOYUtils.js:31 | `{template x}` with a one-character name never matches (the run needs a second character, and `}` is excluded) |
| Scanner.NamespaceDeclared | SOYUtils.js:44 | `{namespace ns}` followed by white space or the end of the text matches with `ns` captured |
| Scanner.FirstNamespace | SOYUtils.js:44-48 | the namespace is never `undefined`, and it is `null` exactly when the namespace expression matches nowhere in the text |
| Scanner.FirstNamespaceWins | SOYUtils.js:46-48 | the namespace is the trimmed capture of the first declaration; later ones are ignored |
| Scanner.NoNamespaceMeansNull | SOYUtils.js:46-51 | with no namespace declaration every name is filed under `"null"` followed by the trimmed capture |
| Scanner.QualifiedNameParts | SOYUtils.js:51 | a key starts with the namespace as `+` renders it, and the name after it is no longer than the capture and neither starts nor ends with white space |
| Scanner.IndexPerName | SOYUtils.js:54-58 | a name is a key exactly when some match qualifies to it, and its list holds those matches' offsets in text order (append, never overwrite) |
| Scanner.TemplateRegExp.Exec | SOYUtils.js:50 | one `exec` on the global expression: the next match from `lastIndex`, which moves to the match's end, or back to 0 on failure |
| Scanner.TableIndex | SOYUtils.js:54-58 | the table of records built from the matches has, name by name, the offsets of the index |
| Scanner.StartsOfAppend | SOYUtils.js:54-58 | pushing a record under a name extends that name's offsets by the record's offset and changes no other name |
| Scanner.AppendKeepsIndex | SOYUtils.js:51-58 | filing one more match keeps the table equal to the index of the matches seen so far |
| Scanner.FileMatch | SOYUtils.js:51-58 | a match is filed as a fresh record, with no end offset yet, under its qualified name |
| Scanner.FileNext | SOYUtils.js:50-59 | one turn of the loop consumes exactly one match, or ends the loop with `lastIndex` reset and every match seen |
| Scanner.FileFound | SOYUtils.js:51-58 | filing a match extends the filed matches by it and keeps the table equal to the index of the matches, with every record fresh and unfilled |
| Scanner.FileAllMatches | SOYUtils.js:50-59 | the loop files every match from the initial `lastIndex` and leaves `lastIndex` at 0 |
| Scanner.FindAllTemplatesInText | SOYUtils.js:39-62 | the table maps each qualified name to the offsets of its markers, in text order; its records are new and unfilled, and the shared expression is left reset |
| Scanner.TemplateRecord.constructor | SOYUtils.js:58 | a marker record starts with only its start offset; end offset and lines are unset |
| BlockEnd.GetTemplateEndOffset | SOYUtils.js:67-123 | the walk returns the end offset of the specification `EndOffset` |
| BlockEnd.EndOffsetStopRule | SOYUtils.js:116-122 | the end is just past the first keyword-styled `{/template` token from the marker on, or the text length when there is none |
| BlockEnd.EndOffsetBounds | SOYUtils.js:67-123 | the end lies between the start and the text length, and strictly after a start inside the text |
| BlockEnd.FirstCloseIsFirst | SOYUtils.js:116-119 | the token the walk stops at is a closer and no earlier token is |
| BlockEnd.WalkTiles | SOYUtils.js:77-114 | the walk's tokens are consecutive slices of the text, with each newline skipped by exactly one offset |
| BlockEnd.TilesBounds | SOYUtils.js:97-113 | the tokens lie inside the text, in increasing and non-overlapping order |
| BlockEnd.LineTokensTile | SOYUtils.js:110-112 | the tokens of one line are consecutive slices of that line, at its offset in the text |
| BlockEnd.NextNonEmptyLine | SOYUtils.js:77-109 | `nextLine` skips empty lines to the next token, or finds none left when the text ends |
| BlockEnd.WalkStep | SOYUtils.js:110-112 | one `mode.token` call yields the next token of the walk, with the offset moved past it |
| Ranges.LinesOrdered | SOYUtils.js:141-142 | a template's first line is never after its last |
| Ranges.Materialise | SOYUtils.js:139-143 | a record with no end offset gets its end offset and lines computed; a record that already has them is left as it was |
| Ranges.ComputeOffsets | SOYUtils.js:133-153 | one range per record, in record order, appended after the earlier ranges, naming the document and the template; each record ends materialised |
| SoyUtils.ShouldGetFromCache | SOYUtils.js:184-212 | the cache is used exactly when it exists and the file is unchanged, or changed but not dirty with an unchanged modification time; a failed `stat` is the only rejection |
| SoyUtils.Visit | SOYUtils.js:270-287 | one file: a cache hit lists the cached table with no document; a rebuild lists and caches the current document's index under its timestamp; a rejection or failed read lists nothing and leaves the cache as it was |
| SoyUtils.Sweep | SOYUtils.js:296-321 | a sweep never evicts a cached file |
| SoyUtils.SweepListsGiven | SOYUtils.js:296-321 | the sweep lists only files it was given, at most one entry per file |
| SoyUtils.SweepLeavesOthers | SOYUtils.js:296-321 | the cache entry of a file not swept is untouched |
| SoyUtils.SweepListsCurrent | SOYUtils.js:161-176 | an entry that carries a document holds the index of exactly that document's current text |
| SoyUtils.SweepSkipsFailure | SOYUtils.js:303-310 | a file that fails is skipped, and the sweep over the others comes out as if it had not been given |
| SoyUtils.QuietSweepServesCache | SOYUtils.js:207-208 | with nothing flagged changed and every file cached, the sweep lists every file from the cache, in order, and rebuilds nothing |
| SoyUtils.HitPaths | SOYUtils.js:232-235 | a listing that holds the name as an own key and whose document can be fetched yields one row per marker filed under the name, all on its own document; any other listing yields none |
| SoyUtils.RowPathsListed | SOYUtils.js:228-253 | every row names a listed document that files markers under exactly the queried name and can be fetched |
| SoyUtils.RowPathsNeedExactKey | SOYUtils.js:232 | a name that no table holds as a key gets no rows: no wildcard, no prefix |
| SoyUtils.RowPathsGiven | SOYUtils.js:343-346 | every row of a query after a sweep names a file the sweep was given |
| SoyUtils.EntryPathsAreRowPaths | SOYUtils.js:228-253 | the rows read off the entries are the rows of their value views |
| SoyUtils.GetOffsetsForTemplate | SOYUtils.js:222-261 | the ranges name the queried template and, in order, the documents of the row specification; a marker whose end was already known is left as it was (the keep half of the memo rule; the fill half and the line values are stated per entry by `OffsetsForEntry`) |
| SoyUtils.OffsetsForEntry | SOYUtils.js:238-255 | an entry that lacks the name, or whose document cannot be fetched, adds nothing and changes no record; otherwise it appends one range per record filed under the name, in order, carrying the lines the record now holds, and each record is materialised for the entry's text: a record with no end offset gets the end and lines of its block, any other is left as it was |
| SoyUtils.FoundRowsSpan | SOYUtils.js:370-376 | each result names its template and spans the lines from its marker to its block end, never backwards |
| SoyUtils.NamedFoundRows | SOYUtils.js:370-376 | the results for one name contain nothing under any other name |
| SoyUtils.SelectTemplates | SOYUtils.js:368-379 | for every name, the result holds exactly the rows of its markers in text order when it is searched for, or when the search is `"*"`, and none otherwise |
| SoyUtils.RowsFor | SOYUtils.js:370-377 | one result per record of the name, in record order, recomputed without touching the record |
| SoyUtils.Filter | SOYUtils.js:337-339 | the kept files are exactly those given that pass the test |
| SoyUtils.FilterAppend | SOYUtils.js:337-339 | filtering keeps the order: the filter of two lists joined is the two filters joined |
| SoyUtils.FilterCounts | SOYUtils.js:337-339 | filtering keeps each file that passes as often as it was given, and drops every other |
| SoyUtils.IsSoyFile | SOYUtils.js:338 | the test is case-blind: a file is a SOY file exactly when its extension is one of the eight spellings of `soy` |
| SoyUtils.SummariseUpdate | SOYUtils.js:166-169 | caching a table replaces that file's entry wholesale and no other |
| SoyUtils.CachedTargetsAreNamed | SOYUtils.js:270-287 | a record that was cached before a sweep and that a swept entry files under a name was cached under that name, since a swept entry holds either a cached table or new records |
| SoyUtils.SoyIndex.constructor | SOYUtils.js:22 | the module starts with an empty cache, nothing flagged changed, and the expression reset |
| SoyUtils.SoyIndex.DocumentChanged | SOYUtils.js:22 | an edit flags its path as changed and touches no cache entry |
| SoyUtils.SoyIndex.ReadFile | SOYUtils.js:161-176 | a read file's table is the index of its text and replaces its cache entry under the document's timestamp; a failed fetch rejects and caches nothing |
| SoyUtils.SoyIndex.GetTemplatesForFile | SOYUtils.js:270-287 | the new cache and the entry are those of `Visit`; the entry names its path, and its table is the one cached for the path or holds only new records; the cache is unchanged or replaced at that path with a table of new records |
| SoyUtils.SoyIndex.GetTemplatesInFiles | SOYUtils.js:296-321 | the new cache and the entries are those of the sweep from the old cache and the old tracker, and the tracker is reset once at the end; each entry holds the table cached for its path before the sweep or only new records |
| SoyUtils.SoyIndex.CollectTemplatesForFile | SOYUtils.js:300-312 | one turn of the sweep: the cache and the appended entry are those of `Visit`, and every table of the cache and of the entries is one cached before the sweep or holds only records made since |
| SoyUtils.SoyIndex.FindMatchingTemplates | SOYUtils.js:331-352 | the ranges name the queried template and files that were asked about (SOY files unless all were kept), in the order the row specification gives; of the records cached before the call, only those filed under the queried name whose end offset was still unknown may change |
| SoyUtils.SoyIndex.OffsetsInFiles | SOYUtils.js:343-350 | the sweep and the ranges over the kept files: the ranges name the queried template and files that were swept, and the same memo rule holds for the records cached before |
| SoyUtils.SoyIndex.FindAllMatchingTemplatesInText | SOYUtils.js:363-382 | for every name of the text, the result holds exactly its markers' line ranges when selected by name or by `"*"`, and none otherwise |
| CallSite.IndexOf | main.js:50 | `indexOf` reports the first occurrence at or after `from`, or -1 exactly when there is none |
| CallSite.StopperCases | main.js:50 | a token stops the name exactly when its text is one of the seven infixes of `"/} "`, the empty text included |
| CallSite.CallFrom | main.js:45-47 | only the first `{call` keyword token starts a name |
| CallSite.CollectUpToStopper | main.js:49-55 | collection joins every token from its start up to the first stopper and nothing after it |
| CallSite.CalledName | main.js:44-56 | the name is empty exactly when there is no `{call`, or the token two after it is missing or a stopper |
| CallSite.CalledNameSpan | main.js:46-55 | the name is the tokens from two after the first `{call` up to the first stopper, joined |
| CallSite.TokenAfterCallIgnored | main.js:46-49 | the token right after `{call` never takes part in the name |
| CallSite.Qualify | main.js:57-59 | qualifying keeps the name as a suffix and yields an empty name only from an empty one |
| CallSite.CallerNamespace | main.js:28-38 | the namespace is `undefined` exactly when the document was not delivered |
| CallSite.RelativeCallMatchesDeclaration | main.js:57-58 | a relative call in a document resolves to the key under which the scanner files a relative declaration of the same name there |
| CallSite.GetTemplateName | main.js:22-65 | the loop yields the qualified called name of the specification |
| CallSite.Provider | main.js:117-136 | no editor outside SOY content or for a multi-line selection; otherwise an editor exactly when the called name is non-empty, for its qualified form |

## Left out

- The CodeMirror soy mode is not modelled. It is a parameter (`BlockEnd.Mode`) that is assumed to consume between one character and the rest of the line per call. A mode that consumed nothing would make the source loop forever.
- `StringUtils.offsetToLineNum` and `getLines` are not modelled as code. `JsText.LineOf` assumes the line of an offset is the number of newlines before it.
- FileExtension: `FileUtils.getFileExtension` is not modelled as code. The model assumes it returns the text after the last `.` of the last `/`-separated segment, or "" when there is none.
- `toLowerCase` is modelled for ASCII letters only.
- FindAllTemplatesInText: text is a sequence of Unicode code points. The source's expressions carry no `u` flag, so they match UTF-16 code units and report code-unit offsets.
  - A name character outside the Basic Multilingual Plane, such as `{template 😀}`, matches in the source (surrogate halves) but not in the model.
  - Offsets and line numbers agree only for text inside the Basic Multilingual Plane.
  - The same holds for the namespace expression used at the call site.
- JavaScript object semantics of the tables are simplified:
  - A table is a `map`, so integer-like names are not moved to the front of the key order.
  - Names such as `__proto__` or `hasOwnProperty` get no special treatment.
  - The key order `_.forEach` visits is any order (`SelectTemplates` picks names nondeterministically). Its contract is stated per name.
- The asynchronous flow is not modelled. `Async.doInParallel` fan-out, promise callbacks and completion order are absent: the model runs the per-file steps one after the other, in input order. The source's entries and ranges come in completion order; the model states them in input order.
- The host services (`DocumentManager`, `FileSystem.stat`, the open-document dirty flag) are an immutable snapshot `Host` for one call. Documents changing during a query are not modelled.
- The change tracker is not modelled as an event source. `SoyIndex.DocumentChanged` stands in for it: each edit adds its path, and `GetTemplatesInFiles` resets it.
- The source hangs the cache on `FileInfo` objects as `fileInfo.SOYUtils`. The model keys it by path in `SoyIndex.cache`.
- GetOffsetsForTemplate: its contract states, in order, each range's document and its name, and that a record whose end offset was known is left alone. The line values of the ranges and the filling of the other records are stated per entry by `OffsetsForEntry`, not for the whole list of entries.
- FindMatchingTemplates: its contract states the documents and names of the ranges, through `RowPaths` over the sweep, and which cached records may change. It does not restate the line values, for the same reason.
- The user-interface plumbing of `main.js` is not modelled: `_createInlineEditor` (lines 71-114), the `MultiRangeInlineEditor`, the language definition and the provider registration (138-146).
- The unused expression at `main.js` line 16 is not modelled.
- Provider: the document read for the namespace is a parameter (`None` when it is not delivered before the name is qualified). This stands in for the `getDocumentForPath` callback at `main.js` lines 28-40, whose timing the model does not capture.
- Provider: the `reason` of the result is always `null` in the source, so the model returns only `NoEditor` for it.
