/**
 * The entry index sheet (pkg/densitysurvey/entrysheet.go): extracting a
 * spreadsheet ID from a free-form cell, and paging through column A of the
 * index sheet to collect the IDs of every listed survey spreadsheet.
 */
module EntrySheet {
  import opened Outcomes
  import opened Text
  import opened Google

  // ---------------------------------------------------------------------------
  // Spreadsheet-ID extraction
  // ---------------------------------------------------------------------------

  /** The ID pattern `^([a-zA-Z0-9_-]{25,})` needs this many ID characters at the start. */
  const MinIdLength := 25

  predicate IsIdChar(c: char) {
    ('a' <= c <= 'z') || ('A' <= c <= 'Z') || ('0' <= c <= '9') || c == '_' || c == '-'
  }

  /** The length of the run of ID characters at the start of s: what the pattern's group takes. */
  function LeadingIdChars(s: string): (n: nat)
    ensures n <= |s|
    decreases |s|
  {
    if |s| == 0 || !IsIdChar(s[0]) then 0 else 1 + LeadingIdChars(s[1..])
  }

  /** The leading run is at least k long exactly when the first k characters are ID characters. */
  lemma {:induction false} LeadingIdCharsAtLeast(s: string, k: nat)
    ensures LeadingIdChars(s) >= k <==> k <= |s| && forall i :: 0 <= i < k ==> IsIdChar(s[i])
    decreases k
  {
    if k > 0 && |s| > 0 && IsIdChar(s[0]) {
      var t := s[1..];
      LeadingIdCharsAtLeast(t, k - 1);
      if k <= |s| && forall i :: 0 <= i < k ==> IsIdChar(s[i]) {
        forall i | 0 <= i < k - 1 ensures IsIdChar(t[i]) {
          assert t[i] == s[i + 1];
        }
      }
      if k - 1 <= |t| && forall i :: 0 <= i < k - 1 ==> IsIdChar(t[i]) {
        forall i | 0 <= i < k ensures IsIdChar(s[i]) {
          if i > 0 { assert s[i] == t[i - 1]; }
        }
      }
    }
  }

  /** The pattern is anchored only at the start: it matches when the first 25 characters are ID characters. */
  predicate MatchesIdPattern(s: string) {
    |s| >= MinIdLength && forall i :: 0 <= i < MinIdLength ==> IsIdChar(s[i])
  }

  /** The pattern matches exactly when the group `[a-zA-Z0-9_-]{25,}`, anchored at `^`, can take its leading run. */
  lemma IdPatternIsLeadingRun(s: string)
    ensures MatchesIdPattern(s) <==> LeadingIdChars(s) >= MinIdLength
  {
    LeadingIdCharsAtLeast(s, MinIdLength);
  }

  /** What url.Parse and Query() make of the input: the host, the path and the decoded query pairs in order. */
  datatype Url = Url(host: string, path: string, query: seq<(string, string)>)

  /** url.Values.Get: the first value given for key, or "" when there is none. */
  function QueryGet(query: seq<(string, string)>, key: string): string
    decreases |query|
  {
    if |query| == 0 then ""
    else if query[0].0 == key then query[0].1
    else QueryGet(query[1..], key)
  }

  const DocsHost := "docs.google.com"
  const DriveHost := "drive.google.com"

  datatype ExtractError =
    | InvalidInput(cause: string)   // "invalid input: %w"
    | NotSpreadsheetUrl             // "input is not a Google Spreadsheet URL or ID"
    | IdNotFound                    // "unable to extract spreadsheet ID from input"

  /** The index of the first path segment that matches the ID pattern, if any. */
  function FirstIdSegment(parts: seq<string>): (r: Option<nat>)
    ensures r.Some? ==> r.value < |parts| && MatchesIdPattern(parts[r.value])
    ensures r.Some? ==> forall j :: 0 <= j < r.value ==> !MatchesIdPattern(parts[j])
    ensures r.None? ==> forall j :: 0 <= j < |parts| ==> !MatchesIdPattern(parts[j])
    decreases |parts|
  {
    if |parts| == 0 then None
    else if MatchesIdPattern(parts[0]) then Some(0)
    else match FirstIdSegment(parts[1..])
      case None => None
      case Some(i) => Some(i + 1)
  }

  /** extractSpreadsheetID; `parseUrl` stands for url.Parse followed by u.Query(). */
  function ExtractSpreadsheetId(input: string, parseUrl: string -> Result<Url, string>): (r: Result<string, ExtractError>)
    ensures r.Ok? ==> MatchesIdPattern(r.value)
    ensures MatchesIdPattern(input) ==> r == Ok(input)
    ensures r.Ok? && r.value != input ==>
      && parseUrl(input).Ok?
      && parseUrl(input).value.host in {DocsHost, DriveHost}
      && (r.value in Split(parseUrl(input).value.path, "/") || r.value == QueryGet(parseUrl(input).value.query, "id"))
  {
    if MatchesIdPattern(input) then Ok(input)
    else match parseUrl(input)
      case Err(cause) => Err(InvalidInput(cause))
      case Ok(u) =>
        if u.host != DocsHost && u.host != DriveHost then Err(NotSpreadsheetUrl)
        else
          var parts := Split(u.path, "/");
          match FirstIdSegment(parts)
          case Some(i) => Ok(parts[i])
          case None =>
            var id := QueryGet(u.query, "id");
            if id != "" && MatchesIdPattern(id) then Ok(id) else Err(IdNotFound)
  }

  /** Each way the extraction can end, with the condition that leads to it. */
  lemma ExtractionCases(input: string, parseUrl: string -> Result<Url, string>)
    requires !MatchesIdPattern(input)
    ensures parseUrl(input).Err? ==> ExtractSpreadsheetId(input, parseUrl) == Err(InvalidInput(parseUrl(input).error))
    ensures parseUrl(input).Ok? && parseUrl(input).value.host !in {DocsHost, DriveHost} ==>
      ExtractSpreadsheetId(input, parseUrl) == Err(NotSpreadsheetUrl)
    ensures parseUrl(input).Ok? && parseUrl(input).value.host in {DocsHost, DriveHost} ==>
      var u := parseUrl(input).value;
      var parts := Split(u.path, "/");
      var id := QueryGet(u.query, "id");
      && (FirstIdSegment(parts).Some? ==> ExtractSpreadsheetId(input, parseUrl) == Ok(parts[FirstIdSegment(parts).value]))
      && (FirstIdSegment(parts).None? && MatchesIdPattern(id) ==> ExtractSpreadsheetId(input, parseUrl) == Ok(id))
      && (FirstIdSegment(parts).None? && !MatchesIdPattern(id) ==> ExtractSpreadsheetId(input, parseUrl) == Err(IdNotFound))
  {
  }

  /** A bare ID is returned whole, whatever follows its first 25 characters. */
  lemma BareIdKeptWithTrailer(id: string, trailer: string, parseUrl: string -> Result<Url, string>)
    requires |id| == MinIdLength && forall i :: 0 <= i < |id| ==> IsIdChar(id[i])
    ensures ExtractSpreadsheetId(id + trailer, parseUrl) == Ok(id + trailer)
  {
    assert MatchesIdPattern(id + trailer) by {
      forall i | 0 <= i < MinIdLength ensures IsIdChar((id + trailer)[i]) { assert (id + trailer)[i] == id[i]; }
    }
  }

  /** The path of a spreadsheet edit URL splits into five segments, the ID fourth. */
  lemma EditPathSegments(id: string)
    requires '/' !in id
    ensures Split("/spreadsheets/d/" + id + "/edit", "/") == ["", "spreadsheets", "d", id, "edit"]
  {
    var segments := ["", "spreadsheets", "d", id, "edit"];
    assert Join([id, "edit"], "/") == id + "/" + "edit" by {
      assert [id, "edit"][1..] == ["edit"];
    }
    assert Join(["d", id, "edit"], "/") == "d" + "/" + (id + "/" + "edit") by {
      assert ["d", id, "edit"][1..] == [id, "edit"];
    }
    assert Join(["spreadsheets", "d", id, "edit"], "/") == "spreadsheets" + "/" + ("d" + "/" + (id + "/" + "edit")) by {
      assert ["spreadsheets", "d", id, "edit"][1..] == ["d", id, "edit"];
    }
    assert Join(segments, "/") == "/spreadsheets/d/" + id + "/edit" by {
      assert segments[1..] == ["spreadsheets", "d", id, "edit"];
    }
    forall i | 0 <= i < |segments| ensures '/' !in segments[i] {
      if i != 3 { assert segments[i] in {"", "spreadsheets", "d", "edit"}; }
    }
    SplitJoin(segments, '/');
  }

  /** `https://docs.google.com/spreadsheets/d/<id>/edit` yields <id>. */
  lemma EditUrlYieldsId(input: string, id: string, parseUrl: string -> Result<Url, string>)
    requires forall i :: 0 <= i < |id| ==> IsIdChar(id[i])
    requires |id| >= MinIdLength && !MatchesIdPattern(input)
    requires parseUrl(input) == Ok(Url(DocsHost, "/spreadsheets/d/" + id + "/edit", []))
    ensures ExtractSpreadsheetId(input, parseUrl) == Ok(id)
  {
    assert '/' !in id by {
      forall i | 0 <= i < |id| ensures id[i] != '/' { assert IsIdChar(id[i]); }
    }
    EditPathSegments(id);
    var parts := ["", "spreadsheets", "d", id, "edit"];
    assert MatchesIdPattern(id);
    assert FirstIdSegment([id, "edit"]) == Some(0);
    assert parts[1..] == ["spreadsheets", "d", id, "edit"];
    assert ["spreadsheets", "d", id, "edit"][1..] == ["d", id, "edit"];
    assert ["d", id, "edit"][1..] == [id, "edit"];
    assert FirstIdSegment(["d", id, "edit"]) == Some(1);
    assert FirstIdSegment(["spreadsheets", "d", id, "edit"]) == Some(2);
    assert FirstIdSegment(parts) == Some(3);
  }

  /** A URL on any other host is rejected, whatever its path holds. */
  lemma ForeignHostRejected(input: string, parseUrl: string -> Result<Url, string>)
    requires !MatchesIdPattern(input)
    requires parseUrl(input) == Ok(Url("example.com", "/x", []))
    ensures ExtractSpreadsheetId(input, parseUrl) == Err(NotSpreadsheetUrl)
  {
  }

  // ---------------------------------------------------------------------------
  // Paging through the entry index
  // ---------------------------------------------------------------------------

  /** Rows per page. */
  const PageSize := 1024

  /** The first row of page k (1-based row numbers): 1, 1025, 2049, ... */
  function PagePos(k: nat): nat { 1 + PageSize * k }

  /**
   * The range read for page k. The source asks for `A{pos}:A{pos+span}` with
   * span = PageSize; both ends are inclusive.
   */
  function PageRange(sheet: string, k: nat, span: nat): Range {
    Range(sheet, 'A', PagePos(k), 'A', PagePos(k) + span)
  }

  /** The span the source uses: endcell is `A{pos+step}`. */
  const SourceSpan := PageSize

  /** A page that makes the loop go on: a successful read of exactly PageSize rows. */
  predicate IsFullPage(res: Result<Grid, CallError>) {
    res.Ok? && |res.value| == PageSize
  }

  predicate IndexRowsPresent(res: Result<Grid, CallError>) {
    res.Ok? ==> forall i :: 0 <= i < |res.value| ==> |res.value[i]| > 0
  }

  datatype IndexError =
    | ReadFailed(readError: CallError, spreadsheetId: string, range: Range)   // read error joined with its range
    | ExtractFailed(extractError: ExtractError)

  /** What one call of GetSheetIDs produces before its return: IDs and joined errors, or a failed read. */
  datatype IndexOutcome = Collected(ids: seq<string>, errs: seq<IndexError>) | ReadAborted(error: IndexError)

  /** The IDs and extraction errors of one page, in row order. */
  function ExtractAll(rows: seq<Row>, parseUrl: string -> Result<Url, string>): (r: (seq<string>, seq<IndexError>))
    requires forall i :: 0 <= i < |rows| ==> |rows[i]| > 0
    ensures |r.0| + |r.1| == |rows|
    ensures forall i :: 0 <= i < |r.0| ==> MatchesIdPattern(r.0[i])
    ensures forall i :: 0 <= i < |r.1| ==> r.1[i].ExtractFailed?
    decreases |rows|
  {
    if |rows| == 0 then ([], [])
    else
      var prev := ExtractAll(rows[..|rows| - 1], parseUrl);
      match ExtractSpreadsheetId(rows[|rows| - 1][0], parseUrl)
      case Ok(id) => (prev.0 + [id], prev.1)
      case Err(e) => (prev.0, prev.1 + [ExtractFailed(e)])
  }

  /** Prefixing the result of earlier pages; a failed read later on discards it. */
  function Prepend(ids: seq<string>, errs: seq<IndexError>, later: IndexOutcome): IndexOutcome {
    match later
    case ReadAborted(e) => later
    case Collected(i, e) => Collected(ids + i, errs + e)
  }

  /** The outcome of reading pages k, k+1, ... up to the first page that is not full. */
  function CollectFrom(read: Reader, parseUrl: string -> Result<Url, string>, spreadsheetId: string, sheet: string,
                       span: nat, k: nat, ghost lastPage: nat): IndexOutcome
    requires k <= lastPage && !IsFullPage(read(PageRange(sheet, lastPage, span)))
    requires forall j :: k <= j <= lastPage ==> IndexRowsPresent(read(PageRange(sheet, j, span)))
    decreases lastPage - k
  {
    var range := PageRange(sheet, k, span);
    assert IndexRowsPresent(read(range));
    match read(range)
    case Err(e) => ReadAborted(ReadFailed(e, spreadsheetId, range))
    case Ok(rows) =>
      var page := ExtractAll(rows, parseUrl);
      if |rows| == PageSize then Prepend(page.0, page.1, CollectFrom(read, parseUrl, spreadsheetId, sheet, span, k + 1, lastPage))
      else Collected(page.0, page.1)
  }

  /** A failed read aborts the walk with that read's error; the errors of a completed walk are all extraction errors. */
  lemma {:induction false} CollectedErrorKinds(read: Reader, parseUrl: string -> Result<Url, string>, spreadsheetId: string,
                                               sheet: string, span: nat, k: nat, lastPage: nat)
    requires k <= lastPage && !IsFullPage(read(PageRange(sheet, lastPage, span)))
    requires forall j :: k <= j <= lastPage ==> IndexRowsPresent(read(PageRange(sheet, j, span)))
    ensures var r := CollectFrom(read, parseUrl, spreadsheetId, sheet, span, k, lastPage);
      && (r.ReadAborted? ==> r.error.ReadFailed? && r.error.spreadsheetId == spreadsheetId)
      && (r.Collected? ==> forall i :: 0 <= i < |r.errs| ==> r.errs[i].ExtractFailed?)
    decreases lastPage - k
  {
    var res := read(PageRange(sheet, k, span));
    assert IndexRowsPresent(res);
    if res.Ok? && |res.value| == PageSize {
      CollectedErrorKinds(read, parseUrl, spreadsheetId, sheet, span, k + 1, lastPage);
      var page := ExtractAll(res.value, parseUrl);
      var rest := CollectFrom(read, parseUrl, spreadsheetId, sheet, span, k + 1, lastPage);
      assert CollectFrom(read, parseUrl, spreadsheetId, sheet, span, k, lastPage) == Prepend(page.0, page.1, rest);
      if rest.Collected? {
        forall i | 0 <= i < |page.1 + rest.errs| ensures (page.1 + rest.errs)[i].ExtractFailed? {
          if i >= |page.1| { assert (page.1 + rest.errs)[i] == rest.errs[i - |page.1|]; }
        }
      }
    }
  }

  /** The pair GetSheetIDs returns for an outcome: a failed read returns no IDs. */
  function Returned(o: IndexOutcome): (seq<string>, seq<IndexError>) {
    match o
    case Collected(ids, errs) => (ids, errs)
    case ReadAborted(e) => ([], [e])
  }

  lemma PrependAssoc(a: seq<string>, ae: seq<IndexError>, b: seq<string>, be: seq<IndexError>, o: IndexOutcome)
    ensures Prepend(a, ae, Prepend(b, be, o)) == Prepend(a + b, ae + be, o)
  {
    if o.Collected? {
      assert a + (b + o.ids) == (a + b) + o.ids;
      assert ae + (be + o.errs) == (ae + be) + o.errs;
    }
  }

  /** The body of the source's inner loop: one page's cells appended, in row order, to the IDs and errors so far. */
  method AppendPage(rows: seq<Row>, parseUrl: string -> Result<Url, string>, ids0: seq<string>, errs0: seq<IndexError>)
    returns (ids: seq<string>, errs: seq<IndexError>)
    requires forall i :: 0 <= i < |rows| ==> |rows[i]| > 0
    ensures ids == ids0 + ExtractAll(rows, parseUrl).0 && errs == errs0 + ExtractAll(rows, parseUrl).1
  {
    ids, errs := ids0, errs0;
    for i := 0 to |rows|
      invariant ids == ids0 + ExtractAll(rows[..i], parseUrl).0
      invariant errs == errs0 + ExtractAll(rows[..i], parseUrl).1
    {
      assert rows[..i + 1][..i] == rows[..i];
      var r := ExtractSpreadsheetId(rows[i][0], parseUrl);
      if r.Err? {
        errs := errs + [ExtractFailed(r.error)];
      } else {
        ids := ids + [r.value];
      }
    }
    assert rows[..|rows|] == rows;
  }

  /**
   * EntrySheet.GetSheetIDs. `sheetTitles` are the titles of the index
   * spreadsheet's worksheets (the first one is read); `lastPage` is a page
   * the remote sheet does not fill, which is what ends the source's loop.
   * Returned errors: [] stands for nil, a longer list for errors.Join.
   */
  method GetSheetIds(read: Reader, parseUrl: string -> Result<Url, string>, spreadsheetId: string,
                     sheetTitles: seq<string>, ghost lastPage: nat)
    returns (sheetIds: seq<string>, err: seq<IndexError>)
    requires |sheetTitles| > 0
    requires !IsFullPage(read(PageRange(sheetTitles[0], lastPage, SourceSpan)))
    requires forall j :: 0 <= j <= lastPage ==> IndexRowsPresent(read(PageRange(sheetTitles[0], j, SourceSpan)))
    ensures (sheetIds, err) == Returned(CollectFrom(read, parseUrl, spreadsheetId, sheetTitles[0], SourceSpan, 0, lastPage))
  {
    var sheetName := sheetTitles[0];
    ghost var whole := CollectFrom(read, parseUrl, spreadsheetId, sheetName, SourceSpan, 0, lastPage);
    var reterr: seq<IndexError> := [];
    sheetIds := [];
    var step := PageSize;
    var pos := 1;
    ghost var k := 0;
    var cont := true;
    while true
      invariant k <= lastPage && pos == PagePos(k)
      invariant Prepend(sheetIds, reterr, CollectFrom(read, parseUrl, spreadsheetId, sheetName, SourceSpan, k, lastPage)) == whole
      decreases lastPage - k
    {
      var range := Range(sheetName, 'A', pos, 'A', pos + step);
      assert range == PageRange(sheetName, k, SourceSpan);
      var data := read(range);
      assert IndexRowsPresent(data);
      if data.Err? {
        return [], [ReadFailed(data.error, spreadsheetId, range)];
      }
      var rows := data.value;
      cont := |rows| == step;
      ghost var idsBefore, errsBefore := sheetIds, reterr;
      sheetIds, reterr := AppendPage(rows, parseUrl, sheetIds, reterr);
      if cont {
        PrependAssoc(idsBefore, errsBefore, ExtractAll(rows, parseUrl).0, ExtractAll(rows, parseUrl).1,
                     CollectFrom(read, parseUrl, spreadsheetId, sheetName, SourceSpan, k + 1, lastPage));
      }
      pos := pos + step;
      k := k + 1;
      if !cont {
        break;
      }
    }
    return sheetIds, reterr;
  }

  // ---------------------------------------------------------------------------
  // Properties of the paging
  // ---------------------------------------------------------------------------

  /** Every string of the list matches the ID pattern. */
  predicate AllIds(ids: seq<string>) {
    forall i :: 0 <= i < |ids| ==> MatchesIdPattern(ids[i])
  }

  /** Every returned ID matches the ID pattern, and a failed read returns no IDs at all. */
  lemma {:induction false} CollectedIdsMatch(read: Reader, parseUrl: string -> Result<Url, string>, spreadsheetId: string,
                                             sheet: string, span: nat, k: nat, lastPage: nat)
    requires k <= lastPage && !IsFullPage(read(PageRange(sheet, lastPage, span)))
    requires forall j :: k <= j <= lastPage ==> IndexRowsPresent(read(PageRange(sheet, j, span)))
    ensures AllIds(Returned(CollectFrom(read, parseUrl, spreadsheetId, sheet, span, k, lastPage)).0)
    ensures CollectFrom(read, parseUrl, spreadsheetId, sheet, span, k, lastPage).ReadAborted? ==>
      Returned(CollectFrom(read, parseUrl, spreadsheetId, sheet, span, k, lastPage)).0 == []
    decreases lastPage - k
  {
    var range := PageRange(sheet, k, span);
    assert IndexRowsPresent(read(range));
    if read(range).Ok? {
      var page := ExtractAll(read(range).value, parseUrl);
      assert AllIds(page.0);
      if |read(range).value| == PageSize {
        CollectedIdsMatch(read, parseUrl, spreadsheetId, sheet, span, k + 1, lastPage);
        var later := CollectFrom(read, parseUrl, spreadsheetId, sheet, span, k + 1, lastPage);
        assert CollectFrom(read, parseUrl, spreadsheetId, sheet, span, k, lastPage) == Prepend(page.0, page.1, later);
        if later.Collected? {
          assert AllIds(later.ids);
          var ids := page.0 + later.ids;
          forall i | 0 <= i < |ids| ensures MatchesIdPattern(ids[i]) {
            if i >= |page.0| {
              assert ids[i] == later.ids[i - |page.0|];
            }
          }
        }
      }
    }
  }

  /**
   * The reader stops at the first page that is not full: pages after it are
   * never read, so two sheets that agree up to that page give the same result.
   */
  lemma {:induction false} StopsAtFirstShortPage(read1: Reader, read2: Reader, parseUrl: string -> Result<Url, string>,
                                                 spreadsheetId: string, sheet: string, span: nat,
                                                 k: nat, m: nat, last1: nat, last2: nat)
    requires k <= m <= last1 && m <= last2
    requires !IsFullPage(read1(PageRange(sheet, m, span)))
    requires !IsFullPage(read1(PageRange(sheet, last1, span))) && !IsFullPage(read2(PageRange(sheet, last2, span)))
    requires forall j :: k <= j <= last1 ==> IndexRowsPresent(read1(PageRange(sheet, j, span)))
    requires forall j :: k <= j <= last2 ==> IndexRowsPresent(read2(PageRange(sheet, j, span)))
    requires forall j :: k <= j <= m ==> read1(PageRange(sheet, j, span)) == read2(PageRange(sheet, j, span))
    ensures CollectFrom(read1, parseUrl, spreadsheetId, sheet, span, k, last1)
         == CollectFrom(read2, parseUrl, spreadsheetId, sheet, span, k, last2)
    decreases m - k
  {
    var range := PageRange(sheet, k, span);
    assert read1(range) == read2(range);
    assert IndexRowsPresent(read1(range));
    if read1(range).Ok? && |read1(range).value| == PageSize {
      assert k != m;
      StopsAtFirstShortPage(read1, read2, parseUrl, spreadsheetId, sheet, span, k + 1, m, last1, last2);
    }
  }

  /** A failed read after any number of full pages discards everything gathered before it. */
  lemma {:induction false} ReadFailureDiscardsEarlierPages(read: Reader, parseUrl: string -> Result<Url, string>,
                                                           spreadsheetId: string, sheet: string, span: nat,
                                                           k: nat, m: nat, lastPage: nat)
    requires k <= m <= lastPage && !IsFullPage(read(PageRange(sheet, lastPage, span)))
    requires forall j :: k <= j <= lastPage ==> IndexRowsPresent(read(PageRange(sheet, j, span)))
    requires forall j :: k <= j < m ==> IsFullPage(read(PageRange(sheet, j, span)))
    requires read(PageRange(sheet, m, span)).Err?
    ensures Returned(CollectFrom(read, parseUrl, spreadsheetId, sheet, span, k, lastPage))
         == ([], [ReadFailed(read(PageRange(sheet, m, span)).error, spreadsheetId, PageRange(sheet, m, span))])
    decreases m - k
  {
    var range := PageRange(sheet, k, span);
    assert IndexRowsPresent(read(range));
    if k < m {
      assert IsFullPage(read(range));
      ReadFailureDiscardsEarlierPages(read, parseUrl, spreadsheetId, sheet, span, k + 1, m, lastPage);
    }
  }

  // ---------------------------------------------------------------------------
  // The page range is one row too long
  // ---------------------------------------------------------------------------

  /**
   * A sheet whose column A holds exactly the cells `col` (rows 1..|col|), read
   * the way the Sheets API answers an inclusive A1 range: the filled rows
   * from startRow to endRow, one single-cell row each.
   */
  function ColumnRows(col: seq<string>, startRow: nat, endRow: nat): (g: Grid)
    ensures forall i :: 0 <= i < |g| ==> |g[i]| == 1
  {
    var last := if endRow < |col| then endRow else |col|;
    if startRow == 0 || last < startRow then []
    else seq(last - startRow + 1, i requires 0 <= i < last - startRow + 1 => [col[startRow - 1 + i]])
  }

  function ColumnReader(col: seq<string>): Reader {
    (r: Range) => Ok(ColumnRows(col, r.startRow, r.endRow))
  }

  lemma ColumnRowsPresent(col: seq<string>, sheet: string, span: nat)
    ensures forall j :: IndexRowsPresent(ColumnReader(col)(PageRange(sheet, j, span)))
  {
  }

  /** On a page of bare IDs every cell is returned as it is, with no error. */
  lemma {:induction false} ExtractAllBareIds(rows: seq<Row>, parseUrl: string -> Result<Url, string>)
    requires forall i :: 0 <= i < |rows| ==> |rows[i]| > 0 && MatchesIdPattern(rows[i][0])
    ensures ExtractAll(rows, parseUrl).1 == []
    ensures ExtractAll(rows, parseUrl).0 == seq(|rows|, i requires 0 <= i < |rows| => rows[i][0])
    decreases |rows|
  {
    if |rows| > 0 {
      ExtractAllBareIds(rows[..|rows| - 1], parseUrl);
    }
  }

  lemma ColumnPageIds(col: seq<string>, parseUrl: string -> Result<Url, string>, startRow: nat, endRow: nat)
    requires 1 <= startRow && forall i :: 0 <= i < |col| ==> MatchesIdPattern(col[i])
    ensures var rows := ColumnRows(col, startRow, endRow);
      var last := if endRow < |col| then endRow else |col|;
      && ExtractAll(rows, parseUrl).1 == []
      && ExtractAll(rows, parseUrl).0 == (if last < startRow then [] else col[startRow - 1..last])
  {
    var rows := ColumnRows(col, startRow, endRow);
    ExtractAllBareIds(rows, parseUrl);
  }

  /**
   * As written: `A{pos}:A{pos+1024}` is 1025 rows, so on an index with more
   * than 1025 filled rows the first page holds 1025 rows, is not "full", and
   * the loop ends. Every ID below row 1025 is silently left out.
   */
  lemma IndexPastRow1025IsCutOff(col: seq<string>, parseUrl: string -> Result<Url, string>, spreadsheetId: string, sheet: string)
    requires |col| > PageSize + 1
    requires forall i :: 0 <= i < |col| ==> MatchesIdPattern(col[i])
    ensures !IsFullPage(ColumnReader(col)(PageRange(sheet, 0, SourceSpan)))
    ensures forall j :: 0 <= j <= 0 ==> IndexRowsPresent(ColumnReader(col)(PageRange(sheet, j, SourceSpan)))
    ensures Returned(CollectFrom(ColumnReader(col), parseUrl, spreadsheetId, sheet, SourceSpan, 0, 0)) == (col[..PageSize + 1], [])
    ensures col[PageSize + 1] !in col[..PageSize + 1] ==>
      col[PageSize + 1] !in Returned(CollectFrom(ColumnReader(col), parseUrl, spreadsheetId, sheet, SourceSpan, 0, 0)).0
  {
    ColumnRowsPresent(col, sheet, SourceSpan);
    ColumnPageIds(col, parseUrl, 1, 1 + PageSize);
    assert |ColumnRows(col, 1, 1 + PageSize)| == PageSize + 1;
  }

  /** The span the paging evidently intends: `A{pos}:A{pos+step-1}`, exactly PageSize rows. */
  const IntendedSpan := PageSize - 1

  /** With PageSize-row pages, the reader returns every ID of the column, once each, in row order. */
  lemma IntendedPagingReadsWholeColumn(col: seq<string>, parseUrl: string -> Result<Url, string>, spreadsheetId: string, sheet: string)
    requires forall i :: 0 <= i < |col| ==> MatchesIdPattern(col[i])
    ensures !IsFullPage(ColumnReader(col)(PageRange(sheet, |col| / PageSize, IntendedSpan)))
    ensures forall j :: 0 <= j <= |col| / PageSize ==> IndexRowsPresent(ColumnReader(col)(PageRange(sheet, j, IntendedSpan)))
    ensures Returned(CollectFrom(ColumnReader(col), parseUrl, spreadsheetId, sheet, IntendedSpan, 0, |col| / PageSize)) == (col, [])
  {
    var lastPage := |col| / PageSize;
    assert PageSize * lastPage <= |col| < PageSize * lastPage + PageSize;
    ColumnRowsPresent(col, sheet, IntendedSpan);
    ColumnPageIds(col, parseUrl, PagePos(lastPage), PagePos(lastPage) + IntendedSpan);
    IntendedPagesFrom(col, parseUrl, spreadsheetId, sheet, 0, lastPage);
    assert col[PageSize * 0..] == col;
  }

  /** Page k of a column under the intended span: PageSize rows while the column lasts, then the rest. */
  lemma IntendedPage(col: seq<string>, parseUrl: string -> Result<Url, string>, sheet: string, k: nat)
    requires forall i :: 0 <= i < |col| ==> MatchesIdPattern(col[i])
    requires PageSize * k <= |col|
    ensures var res := ColumnReader(col)(PageRange(sheet, k, IntendedSpan));
      && res.Ok?
      && (|res.value| == PageSize <==> |col| - PageSize * k >= PageSize)
      && ExtractAll(res.value, parseUrl).1 == []
      && ExtractAll(res.value, parseUrl).0
         == (if |col| - PageSize * k >= PageSize then col[PageSize * k..PageSize * k + PageSize] else col[PageSize * k..])
  {
    var start := PagePos(k);
    ColumnPageIds(col, parseUrl, start, start + IntendedSpan);
    var rows := ColumnRows(col, start, start + IntendedSpan);
    assert ColumnReader(col)(PageRange(sheet, k, IntendedSpan)) == Ok(rows);
    if |col| < start {
      assert col[PageSize * k..] == [];
    }
  }

  /** One step of the page walk: a full page is followed by the next one, any other successful page ends it. */
  lemma CollectFromUnfold(read: Reader, parseUrl: string -> Result<Url, string>, spreadsheetId: string, sheet: string,
                          span: nat, k: nat, lastPage: nat)
    requires k <= lastPage && !IsFullPage(read(PageRange(sheet, lastPage, span)))
    requires forall j :: k <= j <= lastPage ==> IndexRowsPresent(read(PageRange(sheet, j, span)))
    requires read(PageRange(sheet, k, span)).Ok? && IndexRowsPresent(read(PageRange(sheet, k, span)))
    ensures var rows := read(PageRange(sheet, k, span)).value;
      var page := ExtractAll(rows, parseUrl);
      var here := CollectFrom(read, parseUrl, spreadsheetId, sheet, span, k, lastPage);
      && (|rows| == PageSize ==> k < lastPage && here == Prepend(page.0, page.1, CollectFrom(read, parseUrl, spreadsheetId, sheet, span, k + 1, lastPage)))
      && (|rows| != PageSize ==> here == Collected(page.0, page.1))
  {
  }

  lemma {:induction false} IntendedPagesFrom(col: seq<string>, parseUrl: string -> Result<Url, string>, spreadsheetId: string,
                                             sheet: string, k: nat, lastPage: nat)
    requires forall i :: 0 <= i < |col| ==> MatchesIdPattern(col[i])
    requires PageSize * lastPage <= |col| < PageSize * lastPage + PageSize && k <= lastPage
    requires !IsFullPage(ColumnReader(col)(PageRange(sheet, lastPage, IntendedSpan)))
    requires forall j :: k <= j <= lastPage ==> IndexRowsPresent(ColumnReader(col)(PageRange(sheet, j, IntendedSpan)))
    ensures CollectFrom(ColumnReader(col), parseUrl, spreadsheetId, sheet, IntendedSpan, k, lastPage) == Collected(col[PageSize * k..], [])
    decreases lastPage - k
  {
    IntendedPage(col, parseUrl, sheet, k);
    var read := ColumnReader(col);
    assert IndexRowsPresent(read(PageRange(sheet, k, IntendedSpan)));
    CollectFromUnfold(read, parseUrl, spreadsheetId, sheet, IntendedSpan, k, lastPage);
    var page := ExtractAll(read(PageRange(sheet, k, IntendedSpan)).value, parseUrl);
    if |col| - PageSize * k >= PageSize {
      IntendedPagesFrom(col, parseUrl, spreadsheetId, sheet, k + 1, lastPage);
      assert page == (col[PageSize * k..PageSize * k + PageSize], []);
      assert col[PageSize * k..] == col[PageSize * k..PageSize * k + PageSize] + col[PageSize * (k + 1)..];
    }
  }

}
