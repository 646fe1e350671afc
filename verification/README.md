# DW stellar density analyzer — a Dafny model of its core

The analyzer collects Distant Worlds stellar-density survey sheets. An *entry
sheet* is a Google spreadsheet whose first column lists the survey
spreadsheets, each as a bare spreadsheet ID or a Google Docs/Drive URL. Every
worksheet of a *density spreadsheet* is one measurement. It has a
"CMDR - Project" header cell, five header rows, and then one row per sample:
system name, z-sample, system count and maximum distance. The system names
are then looked up in EDSM, which supplies their galactic coordinates. A
small HTTP service answers the web front end: an OAuth2 client
configuration endpoint, a JSON envelope wrapper and a single-page-application
file handler.

The model has one Dafny module per source file:

| module | file | models |
|---|---|---|
| `EntrySheet` | `entrysheet.dfy` | `extractSpreadsheetID` and the paged `GetSheetIDs` loop |
| `DensitySheet` | `densitysheet.dfy` | `parseSheet`, `GetMeasurements`, `strconv.Atoi`, the header split |
| `Measurement` | `measurement.dfy` | `LookupNames`, in place on the data point array |
| `SheetVariations` | `sheetvariations.dfy` | the registry of known worksheet layouts and its consistency |
| `Google` | `google.dfy` | the range/grid/error shapes of the sheets client and the `RateLimit` retry loop |
| `Config` | `config.dfy` | `ParseConfig`: defaults, file overlay, derived OAuth2 endpoints |
| `HttpWrappers` | `wrappers.dfy` | `HTTPError`, `Success`, `returnJson`, `Wrap`, with a recording response writer |
| `Auth` | `authconfig.dfy` | the auth package's `configHandler` and redirect URI |
| `Api` | `apiconfig.dfy` | the api package's older `configHandler` |
| `Spa` | `spahandler.dfy` | `ServeHTTP` path resolution of the SPA handler |
| `GoPath`, `Text`, `Outcomes` | `gopath.dfy`, `text.dfy`, `outcomes.dfy` | Go's `path.Clean`, `strings.Split`/`Join`/`HasPrefix`, Option/Result |

Calls into code outside the core are parameters of the model:
- a sheet read is `read: Range -> Result<Grid, CallError>`;
- the EDSM lookup is `lookup: seq<string> -> Result<seq<SystemData>, CallError>`;
- `url.Parse` is `parseUrl`;
- `strconv.ParseFloat` is `parseFloat: string -> Option<real>`;
- JSON encoding is `marshal`;
- the embedded tar archive is a map from names to files and directories.

The model treats the two unbounded Go loops as follows:
- `RateLimit` receives the sequence of call outcomes. It requires that some outcome is not a 429.
- `GetSheetIDs` receives a ghost index of a page that does not come back full. The loop stops there at the latest.

Go's `errors.Join` is modelled as the sequence of joined errors, with `[]` standing for nil.

A few behaviours one might expect of a survey ingester are not what the code does, and the model follows the code:
- No code selects a layout from the registry. `parseSheet` always uses header row 5 and columns A–D.
- A cell that is not an integer (or float) becomes 0. The row is not skipped, and the maximum distance gets no default of 20.
- `LookupNames` copies the coordinates of the *first* lookup result with the point's name and ignores later ones.
- `GetSheetIDs` continues only when a page returns exactly 1024 rows.

## Model

| member | source | states |
|---|---|---|
| Google.RateLimit | pkg/google/misc.go:9-24 | returns the outcome of the first call that is not a 429 API error, after exactly one wait per earlier call, all of which were 429s; agrees with the retry state machine `Run` |
| Google.Step | pkg/google/misc.go:11-22 | one turn of the loop: only a 429 API error keeps it retrying, at the cost of one wait; any other outcome is returned as it came |
| Google.Run | pkg/google/misc.go:10-23 | over any number of turns the loop waits at most once per call, and a returned outcome never turns back into retrying |
| Google.RunReturnsFirstUnlimited | pkg/google/misc.go:10-23 | the retry machine started with no waits returns the first call that is not rate limited, with as many waits as calls before it |
| Google.RunFrom | pkg/google/misc.go:10-23 | the same from any number of waits already made: waits add up |
| Google.ReturnedIsFinal | pkg/google/misc.go:19-22 | once a call has returned, later call outcomes change nothing |
| Google.NoRetryBound | pkg/google/misc.go:10-18 | a run of 429s only ever adds waits: there is no retry limit |
| Google.TwoRateLimitsThenSuccess | pkg/google/misc.go:13-22 | two 429s then a success return the success after two waits |
| Google.OtherErrorReturnedAtOnce | pkg/google/misc.go:13-19 | an error other than a 429 API error is returned at once, without waiting |
| EntrySheet.IdPatternIsLeadingRun | pkg/densitysurvey/entrysheet.go:68 | the pattern matches exactly when the leading run of ID characters, which its start-anchored group takes, is at least 25 long |
| EntrySheet.LeadingIdCharsAtLeast | pkg/densitysurvey/entrysheet.go:68 | the leading run of ID characters is at least k long exactly when the first k characters are ID characters |
| EntrySheet.FirstIdSegment | pkg/densitysurvey/entrysheet.go:87-92 | the index of the first path segment matching the ID pattern; None only if no segment matches |
| EntrySheet.ExtractSpreadsheetId | pkg/densitysurvey/entrysheet.go:66-102 | a successful result matches the ID pattern; an input matching it is returned as is; any other result is a segment of the path or the `id` query value of a URL on docs.google.com or drive.google.com |
| EntrySheet.ExtractionCases | pkg/densitysurvey/entrysheet.go:76-101 | for an input that is not an ID: a URL parse failure is an invalid-input error, a foreign host is "not a spreadsheet URL", otherwise the first matching segment, then the `id` query value, then "ID not found" |
| EntrySheet.BareIdKeptWithTrailer | pkg/densitysurvey/entrysheet.go:68-73 | the pattern is anchored only at the start: 25 ID characters followed by anything is returned whole |
| EntrySheet.EditPathSegments | pkg/densitysurvey/entrysheet.go:87 | splitting `/spreadsheets/d/<id>/edit` on "/" gives "", "spreadsheets", "d", the ID and "edit" |
| EntrySheet.EditUrlYieldsId | pkg/densitysurvey/entrysheet.go:82-92 | an edit URL on docs.google.com yields the ID from its path |
| EntrySheet.ForeignHostRejected | pkg/densitysurvey/entrysheet.go:82-84 | a URL on another host is rejected |
| EntrySheet.ExtractAll | pkg/densitysurvey/entrysheet.go:48-54 | every index row yields either an ID or an error: IDs plus errors equal rows; every ID matches the pattern; every error is an extraction error |
| EntrySheet.PrependAssoc | pkg/densitysurvey/entrysheet.go:30-54 | accumulating IDs and errors page after page is associative |
| EntrySheet.CollectedErrorKinds | pkg/densitysurvey/entrysheet.go:38-59 | a failed page read aborts the walk with that read's error and the spreadsheet ID; a completed walk reports extraction errors only |
| EntrySheet.AppendPage | pkg/densitysurvey/entrysheet.go:48-54 | the inner loop appends exactly the page's IDs and errors to what was collected before |
| EntrySheet.GetSheetIds | pkg/densitysurvey/entrysheet.go:28-62 | the IDs and errors equal those of the page-by-page specification `CollectFrom` over ranges A{1+1024k}:A{1+1024k+1024} |
| EntrySheet.CollectedIdsMatch | pkg/densitysurvey/entrysheet.go:38-61 | every returned ID matches the ID pattern; when a read fails, no IDs are returned |
| EntrySheet.StopsAtFirstShortPage | pkg/densitysurvey/entrysheet.go:46-58 | pages after the first one not holding exactly 1024 rows are never read: two sheets equal up to that page give the same result |
| EntrySheet.ReadFailureDiscardsEarlierPages | pkg/densitysurvey/entrysheet.go:42-45 | a failing read returns an empty ID list and that read error, discarding the IDs and errors of earlier pages |
| EntrySheet.ColumnRows | pkg/densitysurvey/entrysheet.go:39-41 | an inclusive A-column range of a sheet holds one-cell rows |
| EntrySheet.ColumnRowsPresent | pkg/densitysurvey/entrysheet.go:49 | every row of a column read has the first cell the loop reads |
| EntrySheet.ExtractAllBareIds | pkg/densitysurvey/entrysheet.go:48-54 | rows of bare IDs yield exactly those IDs, in order, with no error |
| EntrySheet.ColumnPageIds | pkg/densitysurvey/entrysheet.go:39-54 | one page of a column of IDs yields the rows in that inclusive range |
| EntrySheet.IndexPastRow1025IsCutOff | pkg/densitysurvey/entrysheet.go:34-46 | as written, an index column of more than 1025 IDs is read as its first 1025 only (see Findings) |
| EntrySheet.IntendedPagingReadsWholeColumn | pkg/densitysurvey/entrysheet.go:34-58 | with the range end at pos+1023, every ID of a column of any length is collected, in order, with no error |
| EntrySheet.IntendedPage | pkg/densitysurvey/entrysheet.go:39-46 | with the corrected span, page k yields the IDs of rows 1024k+1 .. 1024k+1024, without errors, and is full exactly when at least 1024 IDs remain from its first row |
| EntrySheet.IntendedPagesFrom | pkg/densitysurvey/entrysheet.go:38-59 | with the corrected span, paging from page k collects the column from row 1024k+1 on |
| Measurement.Names | pkg/densitysurvey/measurement.go:35-38 | the names list has one entry per data point, in order |
| Measurement.FirstByName | pkg/densitysurvey/measurement.go:47-53 | the index of the first lookup result with the given name; None only if none has it |
| Measurement.FirstByNameIsFirstMatch | pkg/densitysurvey/measurement.go:47-53 | a result is the one used exactly when it is the first with that name |
| Measurement.WithCoordinates | pkg/densitysurvey/measurement.go:49-51 | a matched point takes the result's x, its z as Y and its y as Z, and keeps its name, z-sample, count and maximum distance |
| Measurement.Correlated | pkg/densitysurvey/measurement.go:47-53 | a point with a matching result takes its x, then its z as Y and its y as Z; everything else is kept; a point without a match is unchanged |
| Measurement.CorrelateAll | pkg/densitysurvey/measurement.go:46-55 | every point is correlated on its own, and the count is kept |
| Measurement.LookupNames | pkg/densitysurvey/measurement.go:29-58 | looks up all names once; on a lookup error returns it and leaves the points untouched; otherwise updates the array in place to `CorrelateAll` of the old points |
| Measurement.CorrelateIdempotent | pkg/densitysurvey/measurement.go:46-55 | correlating twice with the same results equals correlating once |
| Measurement.CorrelateKeepsNames | pkg/densitysurvey/measurement.go:46-55 | correlation never changes the system names |
| Measurement.SolAxisSwap | pkg/densitysurvey/measurement.go:49-51 | a result with coordinates (1,2,3) gives the point X=1, Y=3, Z=2 |
| Measurement.LaterDuplicatesIgnored | pkg/densitysurvey/measurement.go:48-52 | of two results with the point's name, only the first is used |
| DensitySheet.Atoi | pkg/densitysurvey/densitysheet.go:75 | strconv.Atoi accepts an optional sign and decimal digits within the int64 range |
| DensitySheet.DecimalDigits | pkg/densitysurvey/densitysheet.go:75 | the decimal form of a natural number is a non-empty digit string |
| DensitySheet.DigitsValueOfDecimal | pkg/densitysurvey/densitysheet.go:75 | reading back the decimal digits of n gives n |
| DensitySheet.AtoiItoa | pkg/densitysurvey/densitysheet.go:75 | every int64 round-trips through its decimal form |
| DensitySheet.LeadingZeroIgnored | pkg/densitysurvey/densitysheet.go:75 | a leading zero does not change the value of a digit string, so Atoi reads "007" as 7 |
| DensitySheet.Itoa | pkg/densitysurvey/densitysheet.go:75 | the decimal form Atoi is proved against: non-empty, a minus sign exactly for negative numbers, then digits |
| DensitySheet.AtoiRejects | pkg/densitysurvey/densitysheet.go:75-79 | empty, space-padded, fractional and sign-only cells are not integers |
| DensitySheet.DefInt | pkg/densitysurvey/densitysheet.go:74-80 | an integer cell gives its value, anything else 0 |
| DensitySheet.DefFloat | pkg/densitysurvey/densitysheet.go:81-87 | a float cell gives its value, anything else 0 |
| DensitySheet.HeaderFields | pkg/densitysurvey/densitysheet.go:68-72 | when the first cell splits on " - " into exactly two parts, CMDR and project are those parts, which re-join to the cell; any other number of parts leaves both empty |
| DensitySheet.HeaderWithoutSeparator | pkg/densitysurvey/densitysheet.go:68-72 | a header cell without " - " leaves CMDR and project empty |
| DensitySheet.NoSeparatorOnePiece | pkg/densitysurvey/densitysheet.go:68 | a string without the separator splits into one piece |
| DensitySheet.RowPoint | pkg/densitysurvey/densitysheet.go:97-102 | a data row gives a point with its name, z-sample, count and maximum distance and zero coordinates |
| DensitySheet.RowPoints | pkg/densitysurvey/densitysheet.go:89-104 | one point per data row, in order |
| DensitySheet.DataRowCount | pkg/densitysurvey/densitysheet.go:89-104 | the data rows are the run of rows with at least four cells after the five header rows, ending at the first shorter row |
| DensitySheet.LongRun | pkg/densitysurvey/densitysheet.go:94-96 | the end of the run of rows with at least four cells from a given row |
| DensitySheet.DataRows | pkg/densitysurvey/densitysheet.go:89-104 | exactly the rows the loop turns into points, in order |
| DensitySheet.Walked | pkg/densitysurvey/densitysheet.go:89-104 | the rows turned into points before a given loop index |
| DensitySheet.Preset | pkg/densitysurvey/densitysheet.go:56-59 | the measurement starts with ten zero-valued data points |
| DensitySheet.RowPointsAppend | pkg/densitysurvey/densitysheet.go:103 | appending a row appends its point |
| DensitySheet.ParsedSheet | pkg/densitysurvey/densitysheet.go:55-107 | what parseSheet returns after a successful read: named after the worksheet, starting with the ten zero points |
| DensitySheet.ParseSheet | pkg/densitysurvey/densitysheet.go:55-107 | reads A1:H256; a read error returns that error; otherwise the measurement named after the sheet, with the header's CMDR and project, ten zero points and then one point per data row |
| DensitySheet.ParsedSheetSize | pkg/densitysurvey/densitysheet.go:56-104 | a parsed sheet holds the ten preset points and at most one more per row after the header rows: at most 251 more for a read of up to 256 rows |
| DensitySheet.ParsedSheetPoints | pkg/densitysurvey/densitysheet.go:56-103 | the first ten points are zero, each later one is its data row's point |
| DensitySheet.BadNumbersBecomeZero | pkg/densitysurvey/densitysheet.go:74-102 | a row with unparseable numbers still yields a point, with zero values |
| DensitySheet.ShortRowEndsTheWalk | pkg/densitysurvey/densitysheet.go:94-96 | rows after the first short data row are never read |
| DensitySheet.ParsedSheets | pkg/densitysurvey/densitysheet.go:44-51 | every measurement kept is the parse of a worksheet whose read succeeded, and when every read succeeds there is one per worksheet |
| DensitySheet.GetMeasurements | pkg/densitysurvey/densitysheet.go:40-53 | as written: returns the parsed measurements and always a nil error (see Findings) |
| DensitySheet.IntendedSheetErrors | pkg/densitysurvey/densitysheet.go:45-47 | the joined error the loop evidently meant to return: one entry per sheet whose read failed |
| DensitySheet.IntendedErrorsNilIffAllRead | pkg/densitysurvey/densitysheet.go:45-52 | the intended error is nil exactly when every sheet was read |
| DensitySheet.IntendedErrorsCoverEverySheet | pkg/densitysurvey/densitysheet.go:44-51 | every sheet is accounted for: measurements plus intended errors equal the sheets |
| DensitySheet.FailedSheetLeavesNoError | pkg/densitysurvey/densitysheet.go:45-52 | as written, a sheet that fails to read vanishes without an error; the intended error reports it |
| SheetVariations.DW3Consistent | pkg/densitysurvey/sheetvariations.go:7-35 | the DW3 layout's header checks lie on its header row, its name, count and X/Z/Y columns are checked, its data columns are distinct and its ratio is within 0..1 |
| SheetVariations.A15XConsistent | pkg/densitysurvey/sheetvariations.go:36-64 | the same for the first A15X layout |
| SheetVariations.A15Xv1Consistent | pkg/densitysurvey/sheetvariations.go:65-93 | the same for the second A15X layout |
| SheetVariations.RegistryConsistent | pkg/densitysurvey/sheetvariations.go:94-96 | every registered layout is consistent |
| SheetVariations.RegistryOrder | pkg/densitysurvey/sheetvariations.go:94-96 | the registry holds DW3, then A15X with header row 4, then A15X with header row 5 |
| SheetVariations.WithHeaderRow | pkg/densitysurvey/sheetvariations.go:65-93 | moving a layout to another header row moves every header check with it and keeps everything else |
| SheetVariations.A15XVariantsDifferOnlyInHeaderRow | pkg/densitysurvey/sheetvariations.go:36-93 | the two A15X layouts differ only in the header row |
| Config.Overlay | pkg/config/config.go:50-64 | a file that sets no key leaves the configuration as it was; a set issuer replaces the current one, an absent one keeps it |
| Config.DeriveEndpoints | pkg/config/config.go:66-72 | an empty authorize or token URL becomes the issuer plus "/auth" or "/token"; non-empty ones are kept; both end up non-empty |
| Config.Configured | pkg/config/config.go:50-72 | the configuration a loaded file gives has non-empty endpoint URLs |
| Config.ParseConfig | pkg/config/config.go:40-75 | a load or unmarshal failure returns that error and no configuration; otherwise the file over the defaults with the endpoints derived |
| Config.EmptyFileGivesDefaults | pkg/config/config.go:50-72 | with nothing set: 8 and 1 connections, no database port, HTTP port 80, the Frontier issuer and its /auth and /token URLs |
| Config.EndpointsFollowFinalIssuer | pkg/config/config.go:58-72 | the URLs are derived from the issuer in force after the file, unless the file sets them |
| Config.FileOverridesDefaults | pkg/config/config.go:50-64 | every other field is the file's value if it has one, the default otherwise |
| Config.DeriveEndpointsIdempotent | pkg/config/config.go:66-72 | deriving the endpoints again changes nothing |
| HttpWrappers.Success | pkg/http/wrappers/wrappers.go:32-37 | a "success" envelope with the data and no message |
| HttpWrappers.Step | pkg/http/wrappers/wrappers.go:60-64 | one call on the writer keeps the response coherent; a commit is final; a WriteHeader before the commit panics exactly for a code outside 100..999; after a panic nothing changes |
| HttpWrappers.Run | pkg/http/wrappers/wrappers.go:60-64 | every sequence of calls leaves the response coherent: nothing is sent before the commit, and a committed status is a final one in 100..999 with no body where the status allows none |
| HttpWrappers.Sent | pkg/http/wrappers/wrappers.go:59-69 | the client receives nothing exactly when the handler panicked; otherwise a final status in 100..999, and no body on a 1xx, 204 or 304 response |
| HttpWrappers.CommitIsFinal | pkg/http/wrappers/wrappers.go:63-64 | once the response is committed, later calls change neither its status nor the header sent with it |
| HttpWrappers.PanicIsFinal | pkg/http/wrappers/wrappers.go:63 | once WriteHeader has panicked, no later call makes anything reach the client |
| HttpWrappers.JsonEvents | pkg/http/wrappers/wrappers.go:59-69 | returnJson first sets the JSON content type; then the status and the encoded body, or http.Error's calls with 500 and the marshal error |
| HttpWrappers.ResponseWriter.SetHeader | pkg/http/wrappers/wrappers.go:60 | records one header setting |
| HttpWrappers.ResponseWriter.WriteHeader | pkg/http/wrappers/wrappers.go:63 | records one status write |
| HttpWrappers.ResponseWriter.Write | pkg/http/wrappers/wrappers.go:64 | records one body write |
| HttpWrappers.ResponseWriter.constructor | pkg/http/wrappers/wrappers.go:59 | a fresh writer has seen no calls |
| HttpWrappers.HttpError | pkg/http/wrappers/wrappers.go:66 | http.Error's calls: plain-text content type, nosniff, the code, the text and a newline |
| HttpWrappers.Envelope | pkg/http/wrappers/wrappers.go:13-55 | an error gives an "error" envelope with its Error() text, no data and its Status() code; no error gives the success envelope of the data and 200; data is present exactly when there is no error |
| HttpWrappers.JsonDelivery | pkg/http/wrappers/wrappers.go:62-64 | returnJson's status and body reach the client unchanged for a code in 200..999 other than 204 and 304, always under the JSON content type; an invalid code delivers nothing |
| HttpWrappers.ReturnJson | pkg/http/wrappers/wrappers.go:59-70 | makes exactly the calls `JsonEvents` lists and returns the marshal error or nil |
| HttpWrappers.Wrap | pkg/http/wrappers/wrappers.go:39-57 | answers through returnJson with the handler's error as an "error" envelope and its status, or the data as a "success" envelope and 200 |
| HttpWrappers.JsonReplyEncoded | pkg/http/wrappers/wrappers.go:60-64 | setting the JSON content type, writing the code and writing the body deliver what JsonDelivery says for that code |
| HttpWrappers.JsonReplyFailed | pkg/http/wrappers/wrappers.go:60-66 | after a marshal failure, http.Error's plain-text content type replaces the JSON one and the client gets 500 and the error text |
| HttpWrappers.JsonReply | pkg/http/wrappers/wrappers.go:59-70 | on a fresh writer the client receives what JsonDelivery says for the code and the encoded envelope; on a marshal failure 500, a plain-text content type and the error text |
| HttpWrappers.WrapReply | pkg/http/wrappers/wrappers.go:39-57 | a wrapped handler's envelope and status reach the client as JsonDelivery says when encoding succeeds, and as http.Error's 500 with the error text when it fails |
| HttpWrappers.ZeroCodeErrorDropsConnection | pkg/http/wrappers/wrappers.go:43-48 | a handler error whose Code is left at Go's zero value makes WriteHeader panic, and the client receives no response |
| Auth.IsLoopbackHost | pkg/http/api/auth/config.go:23-25 | a Host is loopback exactly when its host name, the part before any port, is localhost or 127.0.0.1 |
| Auth.HostName | pkg/http/api/auth/config.go:23-25 | the host name of a Host never contains the port separator |
| Auth.HostNameIs | pkg/http/api/auth/config.go:23-25 | a colon-free name is the host name exactly when the Host is that name, bare or followed by ":" and a port |
| Auth.Scheme | pkg/http/api/auth/config.go:22-29 | http exactly for localhost or 127.0.0.1, bare or with a port; https otherwise |
| Auth.HostOf | pkg/http/api/auth/config.go:34 | reads a Host back out of a redirect URI |
| Auth.RedirectUri | pkg/http/api/auth/config.go:22-34 | the redirect URI starts with http:// exactly for a loopback Host, and with https:// otherwise |
| Auth.RedirectUriRoundTrip | pkg/http/api/auth/config.go:22-34 | the redirect URI is the scheme, the Host and /api/auth/callback: the Host reads back out of it |
| Auth.RedirectUriInjective | pkg/http/api/auth/config.go:34 | different Hosts get different redirect URIs |
| Auth.LoopbackExamples | pkg/http/api/auth/config.go:23-25 | localhost and 127.0.0.1, with or without a port, are loopback |
| Auth.LookalikeExamples | pkg/http/api/auth/config.go:23-28 | localhost.example.com and 127.0.0.10 are not, and get https |
| Auth.ConfigHandler | pkg/http/api/auth/config.go:20-39 | never an error; issuer, client id, authorize and token URL copied from the OAuth2 settings, the scope, and the Host's redirect URI |
| Auth.WrappedConfigAnswersOk | pkg/http/api/auth/config.go:20-39 | through Wrap the endpoint always answers 200 with the configuration in a success envelope, unless encoding fails |
| Api.PublicConfig | pkg/http/api/config.go:9-32 | the payload carries issuer, client id, the Host's redirect URI and the scope, and nothing else |
| Api.ConfigHandler | pkg/http/api/config.go:16-34 | writes the success envelope of that payload through returnJson with status 200 |
| Api.AlwaysOk | pkg/http/api/config.go:33 | whatever the request, the client receives 200 and the payload, unless encoding fails |
| Api.SameRedirectAsAuth | pkg/http/api/config.go:18-30 | both configuration endpoints give a Host the same redirect URI |
| Text.JoinSplit | pkg/densitysurvey/entrysheet.go:87 | strings.Split loses nothing: joining its pieces with the separator gives back the input |
| Text.SplitWithoutSeparator | pkg/densitysurvey/densitysheet.go:68 | a string without the separator splits into itself alone |
| Text.SplitAround | pkg/densitysurvey/entrysheet.go:87 | a separator between two strings splits them apart independently |
| Text.SplitJoin | pkg/densitysurvey/entrysheet.go:87 | splitting the join of separator-free pieces gives back the pieces |
| GoPath.Resolve | pkg/http/spahandler.go:44 | resolving elements never makes the path longer, and never leaves an empty or "." element behind |
| GoPath.CleanElements | pkg/http/spahandler.go:44 | the elements of a cleaned path are no more than those of the raw path, and none is empty or "." |
| GoPath.Clean | pkg/http/spahandler.go:44 | path.Clean's result is never empty, and a rooted path stays rooted |
| GoPath.SplitPiecesFree | pkg/http/spahandler.go:44 | no element of a path split on "/" contains a slash |
| GoPath.ResolveRootedNames | pkg/http/spahandler.go:44 | resolving the elements of a rooted path leaves only plain names |
| GoPath.CleanRootedNames | pkg/http/spahandler.go:44 | a cleaned rooted path is "/" followed by plain names: no "..", "." or empty element |
| GoPath.ResolveNames | pkg/http/spahandler.go:44 | plain names resolve to themselves |
| GoPath.CleanRootedIdempotent | pkg/http/spahandler.go:44 | cleaning a cleaned rooted path changes nothing |
| Spa.NewSPAHandler | pkg/http/spahandler.go:26-40 | a handler over the archive's files with index.html as its index, or the archive error |
| Spa.Stat | pkg/http/spahandler.go:58 | a name exists exactly when it is the root "." or listed in the archive, and is a file only when the archive lists it as one |
| Spa.Relative | pkg/http/spahandler.go:44-49 | for a rooted request path, the path looked up is the cleaned path's names joined by "/", without a leading slash |
| Spa.ServedPath | pkg/http/spahandler.go:44-67 | the served path is the index or an existing file |
| Spa.ServeHTTP | pkg/http/spahandler.go:42-67 | cleans the path, strips one leading slash, falls back to the index for an empty, missing or directory path, and hands an existing file or the index to file serving |
| Spa.RootServesIndex | pkg/http/spahandler.go:44-53 | a request for / is served the index |
| Spa.MissingOrDirectoryServesIndex | pkg/http/spahandler.go:58-59 | a missing path or a directory is served the index |
| Spa.ExistingFileServedUnchanged | pkg/http/spahandler.go:58-67 | a non-empty path is served as it is exactly when it names a file (or is the index itself) |
| Spa.RootedRequestStaysInside | pkg/http/spahandler.go:44-67 | for a rooted request, anything served other than the index is a path of plain names, without ".." |

## Left out

- Network clients (the Google Sheets and EDSM clients) are parameters of the model. So are `url.Parse` with its query decoding, `strconv.ParseFloat`, JSON encoding and the tar archive reader.
- Floating point: coordinates, maximum distances and the minimum sample ratio are `real`; float32 rounding is not modelled.
- `time.Sleep` in `RateLimit` is a count of waits; the log lines printed by `RateLimit`, `parseSheet` and `ServeHTTP` are left out.
- Google.RateLimit: requires that some call outcome is not a 429. The source retries forever on an endless run of 429s; `NoRetryBound` states that part.
- EntrySheet.GetSheetIds: requires a page that does not come back full (the loop's last page) and that every index row has a first cell. A row with no cell panics the source's `row[0]` type assertion.
- EntrySheet.GetSheetIds: `GetSheets()[0]` panics on a spreadsheet without worksheets. The model takes the worksheet titles and requires at least one.
- `NewEntrySheet` and `NewDensitySpreadsheet` only open the spreadsheet (through `RateLimit` in the second case). They are not modelled separately.
- DensitySheet.ParseSheet: requires that a read grid has a first cell. The source's `data.Values[0][0]` panics otherwise.
- Error message texts: `errors.Join` and `fmt.Errorf` wrappers are kept as the list of underlying errors. An index read failure carries the spreadsheet ID and range instead of a formatted message.
- `LookupNames` creating the EDSM client on first use is global state that is not modelled. A lookup result without coordinates (a nil pointer in the source) is not modelled.
- Config.ParseConfig: koanf loading is modelled as "a key present in the file replaces the default". YAML parsing and the `config` key naming the file are left out.
- HttpWrappers: the `Error` interface is modelled by its one implementation, `HTTPError`. The `Status()`/`Error()` accessors are used through `Wrap`.
- HttpWrappers.HttpError: Go's http.Error also deletes any Content-Length header. That deletion is not modelled.
- HttpWrappers.Sent: a panic in WriteHeader unwinds the handler in Go, while the model's writer still records the calls after it. `Sent` gives those calls no effect. The interim responses that a 1xx status sends before the final one are not part of `Reply`. Hijacking, flushing, content sniffing, Content-Length and chunked framing, and trailers are not modelled.
- Api.ConfigHandler: the api package's `oauth2config`, `scopes`, `success` and `returnJson` are not declared in any file of this model. The model takes the OAuth2 settings and the scope as parameters and uses the wrappers package's `Success` and `returnJson`. Nothing registers this handler on a route.
- Spa.ServeHTTP: the branch answering 500 for a Stat error other than "does not exist" is not modelled. With a nil file info the source would call `IsDir` first. The file serving after the hand-off (`http.ServeFileFS`) is I/O and is not modelled.
- The front end, the database layer, route registration, the server lifecycle and the command-line entry points are not part of this model.

## Findings

| source | as written | input that shows it | evidently intended | confidence | as-written member | corrected member |
|---|---|---|---|---|---|---|
| pkg/densitysurvey/entrysheet.go:34-46 | each page reads the inclusive range A{pos}:A{pos+1024}, which is 1025 rows, and the loop continues only when exactly 1024 rows come back | an index column of 1026 or more IDs: the first read returns 1025 rows, the loop stops, and the IDs from row 1026 on are never collected | read A{pos}:A{pos+1023} so that a full page has exactly 1024 rows | high, not executed | EntrySheet.IndexPastRow1025IsCutOff | EntrySheet.IntendedPagingReadsWholeColumn |
| pkg/densitysurvey/densitysheet.go:45-53 | a failed sheet's error is joined into the `err` declared by the `if`, and the returned `reterr` stays nil | a spreadsheet one of whose worksheets fails to read: the call returns the other measurements and a nil error | join into `reterr`, so the error reports every sheet that failed | high, not executed | DensitySheet.FailedSheetLeavesNoError | DensitySheet.IntendedErrorsNilIffAllRead |
