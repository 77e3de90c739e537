/**
 * The windowed remote fetcher (`search` in src/graphql/models/SearchConnection.ts):
 * it turns `first`/`after` into a range of fixed-size remote pages, fetches
 * them one after another, concatenates their rows and hands them to the
 * slice-to-connection mapper. The remote service is the parameter `fetch`;
 * `None` from it is a failed request.
 */
module SearchConnection {
  import opened Wrappers
  import opened ArrayConnections
  import opened SearchApi

  const ROWS_PER_PAGE: int := 50
  const DEFAULT_FIRST: int := 10

  /** The arguments of the `search` query field; `first == None` is an omitted argument. */
  datatype SearchRequest = SearchRequest(
    query: Option<string>, first: Option<int>, args: SearchArgs, after: Option<string>)

  /** `ItemSearchConnection`, as a record of what its constructor receives. */
  datatype ItemSearchConnection = ItemSearchConnection(
    edges: seq<Edge<SearchResponseDoc>>, count: int, pageInfo: PageInfo)

  datatype SearchError = TransportFailed(call: SearchCall) | InvalidArgument(error: ArgError)

  /** JavaScript `a % d` for a positive divisor: the remainder takes the sign of `a`. */
  function JsRemainder(a: int, d: int): int
    requires d > 0
  {
    if a >= 0 then a % d else -((-a) % d)
  }

  /** `Math.ceil(n / d)` for a positive divisor. */
  function CeilDiv(n: int, d: int): int
    requires d > 0
  {
    -((-n) / d)
  }

  /** Line 66: `0` without a cursor, else `cursorToOffset(after)`; `None` is NaN. */
  function StartIndex(b64: Base64, after: Option<string>): Option<int>
  {
    if after.None? then Some(0) else CursorToOffset(b64, after.value)
  }

  /** `Math.floor(startIndex / rowsPerPage)`. */
  function StartPage(startIndex: int): int
  {
    startIndex / ROWS_PER_PAGE
  }

  /** `startIndex % rowsPerPage`. */
  function PageOffset(startIndex: int): int
  {
    JsRemainder(startIndex, ROWS_PER_PAGE)
  }

  /** `Math.ceil((offset + first + 1) / rowsPerPage)`. */
  function PagesToFetch(startIndex: int, first: int): int
  {
    CeilDiv(PageOffset(startIndex) + first + 1, ROWS_PER_PAGE)
  }

  function PageCall(query: Option<string>, args: SearchArgs, page: int): SearchCall
  {
    SearchCall(query, ROWS_PER_PAGE, page, args)
  }

  /** What the fetch loop has after some iterations: rows, last count, calls made, a failed call. */
  datatype Gathered = Gathered(
    docs: seq<SearchResponseDoc>, countFound: int, calls: seq<SearchCall>, failed: Option<SearchCall>)

  /** The state of the fetch loop after `n` iterations (lines 78-90), stopping at a failed call. */
  function Gather(fetch: SearchCall -> Option<SearchResponse>, query: Option<string>, args: SearchArgs,
                  startPage: int, n: nat): Gathered
  {
    if n == 0 then Gathered([], 0, [], None)
    else
      var g := Gather(fetch, query, args, startPage, n - 1);
      if g.failed.Some? then g
      else
        var call := PageCall(query, args, startPage + n - 1);
        match fetch(call)
        case None => g.(calls := g.calls + [call], failed := Some(call))
        case Some(response) =>
          Gathered(g.docs + response.docs, response.numFound, g.calls + [call], None)
  }

  /** The mapper arguments line 93-94 passes: only `first` and `after`. */
  function MapperArgs(first: int, after: Option<string>): ConnectionArgs
  {
    ConnectionArgs(after, None, Some(first), None)
  }

  function ToSearchConnection(c: Result<Connection<SearchResponseDoc>, ArgError>, count: int)
    : Result<ItemSearchConnection, SearchError>
  {
    match c
    case Failure(e) => Failure(InvalidArgument(e))
    case Success(conn) => Success(ItemSearchConnection(conn.edges, count, conn.pageInfo))
  }

  /**
   * `search`. The result and the sequence of remote calls it made. For a
   * cursor that decodes to NaN every window quantity is NaN, the loop does not
   * run, and the mapper sees NaN offsets: it still rejects a negative `first`
   * and otherwise returns no edges, null cursors and false flags.
   */
  method Search(b64: Base64, fetch: SearchCall -> Option<SearchResponse>, request: SearchRequest)
    returns (r: Result<ItemSearchConnection, SearchError>, calls: seq<SearchCall>)
    ensures var first := request.first.GetOr(DEFAULT_FIRST);
      match StartIndex(b64, request.after)
      case None =>
        && calls == []
        && r == (if first < 0 then Failure(InvalidArgument(FirstNegative))
                 else Success(ItemSearchConnection([], 0, PageInfo(None, None, false, false))))
      case Some(startIndex) =>
        var g := Gather(fetch, request.query, request.args, StartPage(startIndex),
                        Max(0, PagesToFetch(startIndex, first)));
        && calls == g.calls
        && (g.failed.Some? ==> r == Failure(TransportFailed(g.failed.value)))
        && (g.failed.None? ==> r == ToSearchConnection(
              SliceConnection(b64, g.docs, MapperArgs(first, request.after), SliceMeta(startIndex, g.countFound)),
              g.countFound))
  {
    var first := request.first.GetOr(DEFAULT_FIRST);
    var rowsPerPage := ROWS_PER_PAGE;
    var start := StartIndex(b64, request.after);
    if start.None? {
      calls := [];
      if first < 0 {
        r := Failure(InvalidArgument(FirstNegative));
      } else {
        r := Success(ItemSearchConnection([], 0, PageInfo(None, None, false, false)));
      }
      return;
    }
    var startIndex := start.value;
    var count := first + 1;
    var startPage := startIndex / rowsPerPage;
    var offset := JsRemainder(startIndex, rowsPerPage);
    var rowsNeeded := offset + count;
    var pagesToFetch := CeilDiv(rowsNeeded, rowsPerPage);
    assert startPage == StartPage(startIndex) && pagesToFetch == PagesToFetch(startIndex, first);

    var fetched := FetchPages(fetch, request.query, request.args, startPage, pagesToFetch);
    calls := fetched.calls;
    if fetched.failed.Some? {
      r := Failure(TransportFailed(fetched.failed.value));
      return;
    }
    var connection := ConnectionFromArraySlice(b64, fetched.docs, MapperArgs(first, request.after),
                                               SliceMeta(startIndex, fetched.countFound));
    r := ToSearchConnection(connection, fetched.countFound);
  }

  /** The fetch loop of lines 78-90: one call per page, in order, appending the rows. */
  method FetchPages(fetch: SearchCall -> Option<SearchResponse>, query: Option<string>, args: SearchArgs,
                    startPage: int, pagesToFetch: int) returns (g: Gathered)
    ensures g == Gather(fetch, query, args, startPage, Max(0, pagesToFetch))
  {
    ghost var n := Max(0, pagesToFetch);
    var docs: seq<SearchResponseDoc> := [];
    var countFound := 0;
    var calls: seq<SearchCall> := [];
    var i := 0;
    while i < pagesToFetch
      invariant 0 <= i <= n
      invariant Gather(fetch, query, args, startPage, i) == Gathered(docs, countFound, calls, None)
    {
      var call := PageCall(query, args, startPage + i);
      calls := calls + [call];
      var response := fetch(call);
      if response.None? {
        GatherStopsAfterFailure(fetch, query, args, startPage, i + 1, n);
        return Gathered(docs, countFound, calls, Some(call));
      }
      countFound := response.value.numFound;
      docs := docs + response.value.docs;
      i := i + 1;
    }
    g := Gathered(docs, countFound, calls, None);
  }

  /** Once a call has failed, later iterations change nothing. */
  lemma {:induction false} GatherStopsAfterFailure(fetch: SearchCall -> Option<SearchResponse>,
      query: Option<string>, args: SearchArgs, startPage: int, k: nat, n: nat)
    requires k <= n
    requires Gather(fetch, query, args, startPage, k).failed.Some?
    ensures Gather(fetch, query, args, startPage, n) == Gather(fetch, query, args, startPage, k)
    decreases n - k
  {
    if k < n {
      GatherStopsAfterFailure(fetch, query, args, startPage, k, n - 1);
    }
  }

  // ---------------------------------------------------------------------------
  // Page-window arithmetic

  /** For a non-negative start, the window starts `offset` rows into page `startPage`. */
  lemma WindowSplit(startIndex: int)
    requires startIndex >= 0
    ensures StartPage(startIndex) * ROWS_PER_PAGE + PageOffset(startIndex) == startIndex
    ensures 0 <= PageOffset(startIndex) < ROWS_PER_PAGE
    ensures StartPage(startIndex) >= 0
  {
  }

  /**
   * For a negative start not on a page boundary the floor and the truncating
   * remainder disagree: the split lands one page too low.
   */
  lemma NegativeWindowSplit(startIndex: int)
    requires startIndex < 0 && startIndex % ROWS_PER_PAGE != 0
    ensures StartPage(startIndex) * ROWS_PER_PAGE + PageOffset(startIndex) == startIndex - ROWS_PER_PAGE
    ensures -ROWS_PER_PAGE < PageOffset(startIndex) < 0
  {
  }

  /** `pagesToFetch` is the least page count covering `offset + first + 1` rows. */
  lemma PagesToFetchIsLeast(startIndex: int, first: int)
    ensures var p := PagesToFetch(startIndex, first);
      var rowsNeeded := PageOffset(startIndex) + first + 1;
      p * ROWS_PER_PAGE >= rowsNeeded && (p - 1) * ROWS_PER_PAGE < rowsNeeded
  {
  }

  /** With a non-negative start and a non-negative `first`, at least one page is fetched. */
  lemma AtLeastOnePage(startIndex: int, first: int)
    requires startIndex >= 0 && first >= 0
    ensures PagesToFetch(startIndex, first) >= 1
  {
    PagesToFetchIsLeast(startIndex, first);
  }

  /**
   * `AtLeastOnePage` needs its non-negative start: the cursor
   * `"arrayconnection:-5"` with `first: 0` asks for no page at all, so the
   * search makes no call and reports a count of 0, an empty edge list and a
   * next page.
   */
  lemma NoPageForNegativeStart(b64: Base64, fetch: SearchCall -> Option<SearchResponse>,
                               query: Option<string>, args: SearchArgs)
    requires IsInverse(b64)
    ensures var after := Some(b64.encode("arrayconnection:-5"));
      && StartIndex(b64, after) == Some(-5)
      && PagesToFetch(-5, 0) == 0
      && Gather(fetch, query, args, StartPage(-5), Max(0, PagesToFetch(-5, 0))) == Gathered([], 0, [], None)
      && ToSearchConnection(SliceConnection(b64, [], MapperArgs(0, after), SliceMeta(-5, 0)), 0)
         == Success(ItemSearchConnection([], 0, PageInfo(None, None, false, true)))
  {
    NegativeStartNoCall(b64, fetch, query, args);
    NegativeStartConnection(b64);
  }

  lemma NegativeStartNoCall(b64: Base64, fetch: SearchCall -> Option<SearchResponse>,
                            query: Option<string>, args: SearchArgs)
    requires IsInverse(b64)
    ensures StartIndex(b64, Some(b64.encode("arrayconnection:-5"))) == Some(-5)
    ensures PagesToFetch(-5, 0) == 0
    ensures Gather(fetch, query, args, StartPage(-5), Max(0, PagesToFetch(-5, 0))) == Gathered([], 0, [], None)
  {
    NegativeCursorDecodes(b64);
  }

  lemma NegativeStartConnection(b64: Base64)
    requires IsInverse(b64)
    ensures var after := Some(b64.encode("arrayconnection:-5"));
      ToSearchConnection(SliceConnection(b64, [], MapperArgs(0, after), SliceMeta(-5, 0)), 0)
        == Success(ItemSearchConnection([], 0, PageInfo(None, None, false, true)))
  {
    var after := Some(b64.encode("arrayconnection:-5"));
    var margs := MapperArgs(0, after);
    var meta := SliceMeta(-5, 0);
    NegativeCursorDecodes(b64);
    assert AfterOffset(b64, margs) == -5;
    assert BeforeOffset(b64, 0, margs, meta) == -5;
    assert SliceConnection<SearchResponseDoc>(b64, [], margs, meta) == MapSlice(b64, [], margs, meta, -5, -5);
    EmptySliceBeforeStart(b64, after);
  }

  /** The mapping of no rows at start -5 with `first: 0`: no edges, and a next page. */
  lemma EmptySliceBeforeStart(b64: Base64, after: Option<string>)
    requires after.Some?
    ensures MapSlice<SearchResponseDoc>(b64, [], MapperArgs(0, after), SliceMeta(-5, 0), -5, -5)
      == Success(Connection([], PageInfo(None, None, false, true)))
  {
    var margs := MapperArgs(0, after);
    var w := ClampedWindow(0, margs, SliceMeta(-5, 0), -5, -5);
    assert w == Offsets(0, -5);
    assert JsSlice<SearchResponseDoc>([], 5, 0) == [];
    assert Edges<SearchResponseDoc>(b64, [], -5, w) == [];
  }

  /** `docs[0]` is row `startPage * 50`, which is `startIndex` exactly on a page boundary. */
  lemma AlignedExactlyOnPageBoundary(startIndex: int)
    ensures StartPage(startIndex) * ROWS_PER_PAGE == startIndex <==> startIndex % ROWS_PER_PAGE == 0
    ensures PageOffset(startIndex) == 0 <==> startIndex % ROWS_PER_PAGE == 0
  {
  }

  /**
   * With neither `first` nor `after`, the search starts at row 0, asks for
   * eleven rows, and so makes exactly one call, for page 0.
   */
  lemma DefaultRequest(b64: Base64, fetch: SearchCall -> Option<SearchResponse>, query: Option<string>, args: SearchArgs)
    ensures var first := SearchRequest(query, None, args, None).first.GetOr(DEFAULT_FIRST);
      && first == 10
      && StartIndex(b64, None) == Some(0)
      && StartPage(0) == 0 && PagesToFetch(0, first) == 1
      && Gather(fetch, query, args, StartPage(0), PagesToFetch(0, first)).calls == [SearchCall(query, 50, 0, args)]
  {
    assert PagesToFetch(0, 10) == 1;
  }

  /** `startIndex = 120`, `first = 10`: page 2, offset 20, one page. */
  lemma WindowExample()
    ensures StartPage(120) == 2 && PageOffset(120) == 20 && PagesToFetch(120, 10) == 1
  {
  }

  /** ... so exactly one call, for page 2, is made. */
  lemma FetchExample(fetch: SearchCall -> Option<SearchResponse>, query: Option<string>, args: SearchArgs)
    ensures Gather(fetch, query, args, StartPage(120), PagesToFetch(120, 10)).calls
      == [SearchCall(query, 50, 2, args)]
  {
    WindowExample();
  }

  // ---------------------------------------------------------------------------
  // What the fetch loop gathers

  /** The rows of pages `startPage .. startPage + n - 1` in page order, all calls succeeding. */
  function PagesInOrder(fetch: SearchCall -> Option<SearchResponse>, query: Option<string>, args: SearchArgs,
                        startPage: int, n: nat): seq<SearchResponseDoc>
    decreases n
  {
    if n == 0 then []
    else
      var head := match fetch(PageCall(query, args, startPage)) case None => [] case Some(resp) => resp.docs;
      head + PagesInOrder(fetch, query, args, startPage + 1, n - 1)
  }

  predicate AllSucceed(fetch: SearchCall -> Option<SearchResponse>, query: Option<string>, args: SearchArgs,
                       startPage: int, n: nat)
  {
    forall p :: startPage <= p < startPage + n ==> fetch(PageCall(query, args, p)).Some?
  }

  lemma {:induction false} PagesInOrderSnoc(fetch: SearchCall -> Option<SearchResponse>, query: Option<string>,
      args: SearchArgs, startPage: int, n: nat)
    requires fetch(PageCall(query, args, startPage + n)).Some?
    ensures PagesInOrder(fetch, query, args, startPage, n + 1)
      == PagesInOrder(fetch, query, args, startPage, n) + fetch(PageCall(query, args, startPage + n)).value.docs
    decreases n
  {
    if n > 0 {
      PagesInOrderSnoc(fetch, query, args, startPage + 1, n - 1);
    }
  }

  /**
   * The calls are for pages `startPage, startPage + 1, ...` in increasing
   * order, up to and including the first one that fails; without a failure
   * there are `n` of them, the rows are the pages' rows concatenated in page
   * order, and the count is the last page's `numFound`.
   */
  lemma {:induction false} GatherInOrder(fetch: SearchCall -> Option<SearchResponse>, query: Option<string>,
      args: SearchArgs, startPage: int, n: nat)
    ensures var g := Gather(fetch, query, args, startPage, n);
      && |g.calls| <= n
      && (forall i :: 0 <= i < |g.calls| ==> g.calls[i] == PageCall(query, args, startPage + i))
      && (g.failed.None? <==> AllSucceed(fetch, query, args, startPage, n))
      && (g.failed.None? ==>
            && |g.calls| == n
            && g.docs == PagesInOrder(fetch, query, args, startPage, n)
            && g.countFound == (if n == 0 then 0 else fetch(PageCall(query, args, startPage + n - 1)).value.numFound))
      && (g.failed.Some? ==>
            && |g.calls| > 0 && g.failed == Some(g.calls[|g.calls| - 1])
            && fetch(g.calls[|g.calls| - 1]).None?
            && forall i :: 0 <= i < |g.calls| - 1 ==> fetch(g.calls[i]).Some?)
    decreases n
  {
    if n > 0 {
      GatherInOrder(fetch, query, args, startPage, n - 1);
      var g := Gather(fetch, query, args, startPage, n - 1);
      if g.failed.None? {
        var call := PageCall(query, args, startPage + n - 1);
        if fetch(call).Some? {
          PagesInOrderSnoc(fetch, query, args, startPage, n - 1);
        } else {
          assert !AllSucceed(fetch, query, args, startPage, n);
          forall i | 0 <= i < |g.calls| ensures fetch(g.calls[i]).Some? {
            assert g.calls[i] == PageCall(query, args, startPage + i);
          }
        }
      } else {
        assert !AllSucceed(fetch, query, args, startPage, n - 1);
      }
    }
  }

  /**
   * A slice that claims to start at `startIndex` but holds the rows from
   * `startIndex - offset` on: what it holds for offset `o` is row `o - offset`.
   */
  lemma MisalignedRow(rows: seq<SearchResponseDoc>, docs: seq<SearchResponseDoc>, startIndex: int,
                      o: int, node: SearchResponseDoc)
    requires startIndex >= 0
    requires startIndex - PageOffset(startIndex) + |docs| <= |rows|
    requires forall j :: 0 <= j < |docs| ==> docs[j] == rows[startIndex - PageOffset(startIndex) + j]
    requires 0 <= o - startIndex < |docs| && node == docs[o - startIndex]
    ensures 0 <= o - PageOffset(startIndex) < |rows| && node == rows[o - PageOffset(startIndex)]
    ensures o - PageOffset(startIndex) == o <==> startIndex % ROWS_PER_PAGE == 0
  {
    WindowSplit(startIndex);
    AlignedExactlyOnPageBoundary(startIndex);
  }

  /**
   * The misalignment of line 95: if the rows handed over start at row
   * `startPage * 50` of the logical result list `rows` (which is
   * `startIndex - offset`, by `WindowSplit`), edge `i` carries the cursor of
   * offset `start + i` but the row at `start + i - offset`. The two agree
   * exactly when `startIndex` is a multiple of 50.
   */
  lemma EdgeRowVersusCursor(b64: Base64, rows: seq<SearchResponseDoc>, docs: seq<SearchResponseDoc>,
      startIndex: int, first: int, after: Option<string>, countFound: int, a: int, b: int, i: nat)
    requires startIndex >= 0
    requires startIndex - PageOffset(startIndex) + |docs| <= |rows|
    requires forall j :: 0 <= j < |docs| ==> docs[j] == rows[startIndex - PageOffset(startIndex) + j]
    requires MapSlice(b64, docs, MapperArgs(first, after), SliceMeta(startIndex, countFound), a, b).Success?
    requires i < |MapSlice(b64, docs, MapperArgs(first, after), SliceMeta(startIndex, countFound), a, b).value.edges|
    ensures var w := ClampedWindow(|docs|, MapperArgs(first, after), SliceMeta(startIndex, countFound), a, b);
      var e := MapSlice(b64, docs, MapperArgs(first, after), SliceMeta(startIndex, countFound), a, b).value.edges[i];
      && 0 <= w.start + i - PageOffset(startIndex) < |rows|
      && e.cursor == OffsetToCursor(b64, w.start + i)
      && e.node == rows[w.start + i - PageOffset(startIndex)]
      && (w.start + i - PageOffset(startIndex) == w.start + i <==> startIndex % ROWS_PER_PAGE == 0)
  {
    var meta := SliceMeta(startIndex, countFound);
    var w := ClampedWindow(|docs|, MapperArgs(first, after), meta, a, b);
    EdgeAt(b64, docs, MapperArgs(first, after), meta, a, b, i);
    var e := MapSlice(b64, docs, MapperArgs(first, after), meta, a, b).value.edges[i];
    MisalignedRow(rows, docs, startIndex, w.start + i, e.node);
  }
}
