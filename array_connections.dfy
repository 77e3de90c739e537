/**
 * Relay-style connections over arrays (src/graphql/helpers/arrayConnections.ts):
 * the cursor codec, the default-offset helper, and the mapper that turns a
 * fetched slice of a logical array plus `first`/`after`/`last`/`before` into
 * edges and page info.
 */
module ArrayConnections {
  import opened Wrappers
  import opened Decimal

  /**
   * The `base64`/`unbase64` pair the codec imports. Its implementation is not
   * part of this model, so it is a parameter of every operation that uses it,
   * and the properties that need it to be reversible say so with `IsInverse`.
   */
  datatype Base64 = Base64(encode: string -> string, decode: string -> string)

  ghost predicate IsInverse(b64: Base64)
  {
    forall s :: b64.decode(b64.encode(s)) == s
  }

  const PREFIX: string := "arrayconnection:"

  /** `offsetToCursor`. */
  function OffsetToCursor(b64: Base64, offset: int): string
  {
    b64.encode(PREFIX + IntToString(offset))
  }

  /** JavaScript `s.substring(start)` for a non-negative start. */
  function SubstringFrom(s: string, start: nat): string
  {
    if start <= |s| then s[start..] else ""
  }

  /**
   * `cursorToOffset`: decode, drop the first `PREFIX.length` characters whatever
   * they are, and `parseInt` the rest. `None` stands for NaN.
   */
  function CursorToOffset(b64: Base64, cursor: string): Option<int>
  {
    ParseInt(SubstringFrom(b64.decode(cursor), |PREFIX|))
  }

  /** `getOffsetWithDefault`; `cursor == None` is a cursor that is not a string. */
  function GetOffsetWithDefault(b64: Base64, cursor: Option<string>, defaultOffset: int): (r: int)
    ensures cursor.None? ==> r == defaultOffset
    ensures cursor.Some? && CursorToOffset(b64, cursor.value).None? ==> r == defaultOffset
    ensures cursor.Some? && CursorToOffset(b64, cursor.value).Some? ==> r == CursorToOffset(b64, cursor.value).value
  {
    if cursor.None? then defaultOffset
    else match CursorToOffset(b64, cursor.value)
      case None => defaultOffset
      case Some(offset) => offset
  }

  /** Every integer offset survives the trip through a cursor. */
  lemma CursorRoundTrip(b64: Base64, offset: int)
    requires IsInverse(b64)
    ensures CursorToOffset(b64, OffsetToCursor(b64, offset)) == Some(offset)
  {
    var plain := PREFIX + IntToString(offset);
    assert b64.decode(b64.encode(plain)) == plain;
    assert SubstringFrom(plain, |PREFIX|) == IntToString(offset);
    ParseIntRoundTrip(offset);
  }

  /** Distinct offsets give distinct cursors, and equal offsets the same cursor. */
  lemma CursorsDistinct(b64: Base64, m: int, n: int)
    requires IsInverse(b64)
    ensures OffsetToCursor(b64, m) == OffsetToCursor(b64, n) <==> m == n
  {
    if OffsetToCursor(b64, m) == OffsetToCursor(b64, n) {
      var pm := PREFIX + IntToString(m);
      var pn := PREFIX + IntToString(n);
      assert b64.decode(b64.encode(pm)) == pm;
      assert b64.decode(b64.encode(pn)) == pn;
      assert pm[|PREFIX|..] == IntToString(m);
      assert pn[|PREFIX|..] == IntToString(n);
      IntToStringInjective(m, n);
    }
  }

  /** A cursor made by the codec always overrides the default. */
  lemma OffsetOfEncodedCursor(b64: Base64, offset: int, defaultOffset: int)
    requires IsInverse(b64)
    ensures GetOffsetWithDefault(b64, Some(OffsetToCursor(b64, offset)), defaultOffset) == offset
  {
    CursorRoundTrip(b64, offset);
  }

  /**
   * The prefix is not checked: whatever the first sixteen decoded characters
   * are, the cursor decodes to `parseInt` of the remainder.
   */
  lemma PrefixIgnored(b64: Base64, head: string, tail: string)
    requires IsInverse(b64)
    requires |head| == |PREFIX|
    ensures CursorToOffset(b64, b64.encode(head + tail)) == ParseInt(tail)
  {
    assert b64.decode(b64.encode(head + tail)) == head + tail;
    assert SubstringFrom(head + tail, |PREFIX|) == tail;
  }

  /** A decoded text of at most sixteen characters, or one whose remainder has no digit, is NaN. */
  lemma GarbageCursorIsNaN(b64: Base64, cursor: string)
    requires var rest := SubstringFrom(b64.decode(cursor), |PREFIX|);
             forall i :: 0 <= i < |rest| ==> !IsDigit(rest[i])
    ensures CursorToOffset(b64, cursor) == None
    ensures forall d :: GetOffsetWithDefault(b64, Some(cursor), d) == d
  {
    ParseIntWithoutDigits(SubstringFrom(b64.decode(cursor), |PREFIX|));
  }

  /** `"arrayconnection:-5"` decodes to -5: negative offsets are accepted. */
  lemma NegativeCursorDecodes(b64: Base64)
    requires IsInverse(b64)
    ensures CursorToOffset(b64, b64.encode("arrayconnection:-5")) == Some(-5)
  {
    assert "arrayconnection:-5" == PREFIX + IntToString(-5);
    CursorRoundTrip(b64, -5);
  }

  // ---------------------------------------------------------------------------
  // Connections

  datatype ConnectionArgs = ConnectionArgs(
    after: Option<string>, before: Option<string>, first: Option<int>, last: Option<int>)

  datatype SliceMeta = SliceMeta(sliceStart: int, arrayLength: int)

  datatype Edge<T> = Edge(cursor: string, node: T)

  datatype PageInfo = PageInfo(
    startCursor: Option<string>, endCursor: Option<string>,
    hasPreviousPage: bool, hasNextPage: bool)

  datatype Connection<T> = Connection(edges: seq<Edge<T>>, pageInfo: PageInfo)

  /** The two usage errors the mapper throws. */
  datatype ArgError = FirstNegative | LastNegative
  {
    function Message(): string
    {
      match this
      case FirstNegative => "Argument \"first\" must be a non-negative integer"
      case LastNegative => "Argument \"last\" must be a non-negative integer"
    }
  }

  /** The window `[start, end)` of absolute offsets the mapper settles on. */
  datatype Offsets = Offsets(start: int, end: int)

  /**
   * JavaScript `Array.prototype.slice` index normalisation: a negative index
   * counts from the end, and the result is clamped to `[0, length]`.
   */
  function JsSliceIndex(k: int, length: nat): (r: nat)
    ensures r <= length
  {
    if k < 0 then Max(length + k, 0) else Min(k, length)
  }

  function JsSlice<T>(s: seq<T>, start: int, end: int): (r: seq<T>)
    ensures |r| <= |s|
  {
    var from := JsSliceIndex(start, |s|);
    var to := JsSliceIndex(end, |s|);
    if from < to then s[from..to] else []
  }

  function AfterOffset(b64: Base64, args: ConnectionArgs): int
  {
    GetOffsetWithDefault(b64, args.after, -1)
  }

  function InitialEnd(sliceLength: nat, meta: SliceMeta): int
  {
    Min(meta.sliceStart + sliceLength, meta.arrayLength)
  }

  function BeforeOffset(b64: Base64, sliceLength: nat, args: ConnectionArgs, meta: SliceMeta): int
  {
    GetOffsetWithDefault(b64, args.before, InitialEnd(sliceLength, meta))
  }

  /**
   * The window of lines 58-84 once `after` has decoded to `a` and `before` to
   * `b`: start past a usable `after`, end at a usable `before`, then cut to
   * `first` from the start and to `last` from the end.
   */
  function ClampedWindow(sliceLength: nat, args: ConnectionArgs, meta: SliceMeta, a: int, b: int): Offsets
  {
    var s1 := if 0 <= a < meta.arrayLength then Max(Max(meta.sliceStart, 0), a + 1) else Max(meta.sliceStart, 0);
    var e1 := if 0 <= b < meta.arrayLength then Min(InitialEnd(sliceLength, meta), b) else InitialEnd(sliceLength, meta);
    var e2 := if args.first.Some? then Min(e1, s1 + args.first.value) else e1;
    var s2 := if args.last.Some? then Max(s1, e2 - args.last.value) else s1;
    Offsets(s2, e2)
  }

  /** The window for the arguments as given, cursors decoded. */
  function Window(b64: Base64, sliceLength: nat, args: ConnectionArgs, meta: SliceMeta): Offsets
  {
    ClampedWindow(sliceLength, args, meta, AfterOffset(b64, args), BeforeOffset(b64, sliceLength, args, meta))
  }

  /** The lower bound of line 99: one past the `after` offset when a cursor is given. */
  function LowerBound(args: ConnectionArgs, a: int): int
  {
    if args.after.Some? then a + 1 else 0
  }

  /** The upper bound of line 100: the `before` offset when a cursor is given. */
  function UpperBound(args: ConnectionArgs, meta: SliceMeta, b: int): int
  {
    if args.before.Some? then b else meta.arrayLength
  }

  /** The usage error the arguments provoke, `first` being checked before `last`. */
  function ArgumentError(args: ConnectionArgs): Option<ArgError>
  {
    if args.first.Some? && args.first.value < 0 then Some(FirstNegative)
    else if args.last.Some? && args.last.value < 0 then Some(LastNegative)
    else None
  }

  /** The edges of lines 87-95: the trimmed slice, each element with the cursor of its offset. */
  function Edges<T>(b64: Base64, arraySlice: seq<T>, sliceStart: int, w: Offsets): seq<Edge<T>>
  {
    EdgesFrom(b64, JsSlice(arraySlice, w.start - sliceStart, w.end - sliceStart), w.start)
  }

  /** The `map` of lines 92-95: element `i` of the trimmed slice with the cursor of offset `start + i`. */
  function EdgesFrom<T>(b64: Base64, slice: seq<T>, start: int): seq<Edge<T>>
  {
    seq(|slice|, i requires 0 <= i < |slice| => Edge(OffsetToCursor(b64, start + i), slice[i]))
  }

  function MakePageInfo<T>(edges: seq<Edge<T>>, args: ConnectionArgs, w: Offsets, lower: int, upper: int): PageInfo
  {
    PageInfo(
      if |edges| > 0 then Some(edges[0].cursor) else None,
      if |edges| > 0 then Some(edges[|edges| - 1].cursor) else None,
      if args.last.Some? then w.start > lower else false,
      if args.first.Some? then w.end < upper else false)
  }

  /**
   * Lines 71-108 once the cursors have decoded to `a` (for `after`) and `b`
   * (for `before`): the usage error, or the edges and page info.
   */
  function MapSlice<T>(b64: Base64, arraySlice: seq<T>, args: ConnectionArgs, meta: SliceMeta, a: int, b: int)
    : Result<Connection<T>, ArgError>
  {
    if ArgumentError(args).Some? then Failure(ArgumentError(args).value)
    else
      var w := ClampedWindow(|arraySlice|, args, meta, a, b);
      var edges := Edges(b64, arraySlice, meta.sliceStart, w);
      Success(Connection(edges, MakePageInfo(edges, args, w, LowerBound(args, a), UpperBound(args, meta, b))))
  }

  /** The connection `connectionFromArraySlice` returns, or the error it throws. */
  function SliceConnection<T>(b64: Base64, arraySlice: seq<T>, args: ConnectionArgs, meta: SliceMeta)
    : Result<Connection<T>, ArgError>
  {
    MapSlice(b64, arraySlice, args, meta, AfterOffset(b64, args), BeforeOffset(b64, |arraySlice|, args, meta))
  }

  /**
   * Lines 56-84 of `connectionFromArraySlice`: the offsets updated step by
   * step, with the decoded `after` and `before` offsets it also keeps.
   */
  method ClampOffsets(b64: Base64, sliceLength: nat, args: ConnectionArgs, meta: SliceMeta)
    returns (r: Result<Offsets, ArgError>, afterOffset: int, beforeOffset: int)
    ensures afterOffset == AfterOffset(b64, args)
    ensures beforeOffset == BeforeOffset(b64, sliceLength, args, meta)
    ensures ArgumentError(args).Some? ==> r == Failure(ArgumentError(args).value)
    ensures ArgumentError(args).None? ==> r == Success(ClampedWindow(sliceLength, args, meta, afterOffset, beforeOffset))
  {
    var sliceEnd := meta.sliceStart + sliceLength;
    var startOffset := Max(meta.sliceStart, 0);
    var endOffset := Min(sliceEnd, meta.arrayLength);

    afterOffset := GetOffsetWithDefault(b64, args.after, -1);
    if 0 <= afterOffset < meta.arrayLength {
      startOffset := Max(startOffset, afterOffset + 1);
    }

    beforeOffset := GetOffsetWithDefault(b64, args.before, endOffset);
    if 0 <= beforeOffset < meta.arrayLength {
      endOffset := Min(endOffset, beforeOffset);
    }
    ghost var s1, e1 := startOffset, endOffset;

    if args.first.Some? {
      if args.first.value < 0 {
        return Failure(FirstNegative), afterOffset, beforeOffset;
      }
      endOffset := Min(endOffset, startOffset + args.first.value);
    }
    ghost var e2 := endOffset;
    if args.last.Some? {
      if args.last.value < 0 {
        return Failure(LastNegative), afterOffset, beforeOffset;
      }
      startOffset := Max(startOffset, endOffset - args.last.value);
    }
    ClampSteps(sliceLength, args, meta, afterOffset, beforeOffset, s1, e1, e2, startOffset);
    r := Success(Offsets(startOffset, endOffset));
  }

  /** `ClampedWindow` as its four steps, in terms of the intermediate offsets. */
  lemma ClampSteps(sliceLength: nat, args: ConnectionArgs, meta: SliceMeta,
                   a: int, b: int, s1: int, e1: int, e2: int, s2: int)
    requires s1 == if 0 <= a < meta.arrayLength then Max(Max(meta.sliceStart, 0), a + 1) else Max(meta.sliceStart, 0)
    requires e1 == if 0 <= b < meta.arrayLength then Min(InitialEnd(sliceLength, meta), b) else InitialEnd(sliceLength, meta)
    requires e2 == if args.first.Some? then Min(e1, s1 + args.first.value) else e1
    requires s2 == if args.last.Some? then Max(s1, e2 - args.last.value) else s1
    ensures ClampedWindow(sliceLength, args, meta, a, b) == Offsets(s2, e2)
  {
  }

  /** `connectionFromArraySlice`: the clamped window, then the trimmed slice mapped to edges, then the page info. */
  method ConnectionFromArraySlice<T>(b64: Base64, arraySlice: seq<T>, args: ConnectionArgs, meta: SliceMeta)
    returns (r: Result<Connection<T>, ArgError>)
    ensures r == SliceConnection(b64, arraySlice, args, meta)
  {
    var window, afterOffset, beforeOffset := ClampOffsets(b64, |arraySlice|, args, meta);
    if window.Failure? {
      return Failure(window.error);
    }
    var w := window.value;
    var edges := Edges(b64, arraySlice, meta.sliceStart, w);
    var lowerBound := if args.after.Some? then afterOffset + 1 else 0;
    var upperBound := if args.before.Some? then beforeOffset else meta.arrayLength;
    r := Success(Connection(edges, MakePageInfo(edges, args, w, lowerBound, upperBound)));
  }

  /** `connectionFromArray`: the whole array is the slice. */
  method ConnectionFromArray<T>(b64: Base64, data: seq<T>, args: ConnectionArgs)
    returns (r: Result<Connection<T>, ArgError>)
    ensures r == SliceConnection(b64, data, args, SliceMeta(0, |data|))
  {
    r := ConnectionFromArraySlice(b64, data, args, SliceMeta(0, |data|));
  }

  // ---------------------------------------------------------------------------
  // Properties of the mapper. Most hold for whatever offsets the cursors decode
  // to, so they are stated on `MapSlice`; `SliceConnection` is one instance.

  /** A negative `first` or `last` always throws, `first` winning; otherwise nothing throws. */
  lemma NegativeArgumentsRejected<T>(b64: Base64, arraySlice: seq<T>, args: ConnectionArgs, meta: SliceMeta)
    ensures var r := SliceConnection(b64, arraySlice, args, meta);
      && (args.first.Some? && args.first.value < 0 ==> r == Failure(FirstNegative))
      && (!(args.first.Some? && args.first.value < 0) && args.last.Some? && args.last.value < 0
          ==> r == Failure(LastNegative))
      && (r.Success? <==> !(args.first.Some? && args.first.value < 0) && !(args.last.Some? && args.last.value < 0))
  {
  }

  /** The size of the JavaScript slice when neither index counts from the end. */
  lemma JsSliceLength<T>(s: seq<T>, start: int, end: int)
    requires 0 <= start && 0 <= end
    ensures |JsSlice(s, start, end)| == Max(0, Min(end, |s|) - Min(start, |s|))
    ensures |JsSlice(s, start, end)| <= Max(0, end - start)
  {
  }

  /** Element `i` of a JavaScript slice whose start does not count from the end. */
  lemma JsSliceAt<T>(s: seq<T>, start: int, end: int, i: nat)
    requires 0 <= start && i < |JsSlice(s, start, end)|
    ensures start + i < |s| && JsSlice(s, start, end)[i] == s[start + i]
  {
  }

  /** The window never starts before the slice does. */
  lemma WindowStartsInSlice(sliceLength: nat, args: ConnectionArgs, meta: SliceMeta, a: int, b: int)
    ensures ClampedWindow(sliceLength, args, meta, a, b).start >= Max(meta.sliceStart, 0)
  {
  }

  /**
   * Edge `i` carries the cursor of offset `start + i` and the slice element at
   * that offset, whatever the arguments.
   */
  lemma EdgeAt<T>(b64: Base64, arraySlice: seq<T>, args: ConnectionArgs, meta: SliceMeta, a: int, b: int, i: nat)
    requires MapSlice(b64, arraySlice, args, meta, a, b).Success?
    requires i < |MapSlice(b64, arraySlice, args, meta, a, b).value.edges|
    ensures var w := ClampedWindow(|arraySlice|, args, meta, a, b);
      var e := MapSlice(b64, arraySlice, args, meta, a, b).value.edges[i];
      && 0 <= w.start - meta.sliceStart + i < |arraySlice|
      && e.cursor == OffsetToCursor(b64, w.start + i)
      && e.node == arraySlice[w.start - meta.sliceStart + i]
  {
    EdgeCursorAt(b64, arraySlice, args, meta, a, b, i);
    EdgeNodeAt(b64, arraySlice, args, meta, a, b, i);
  }

  lemma EdgeCursorAt<T>(b64: Base64, arraySlice: seq<T>, args: ConnectionArgs, meta: SliceMeta, a: int, b: int, i: nat)
    requires MapSlice(b64, arraySlice, args, meta, a, b).Success?
    requires i < |MapSlice(b64, arraySlice, args, meta, a, b).value.edges|
    ensures MapSlice(b64, arraySlice, args, meta, a, b).value.edges[i].cursor
            == OffsetToCursor(b64, ClampedWindow(|arraySlice|, args, meta, a, b).start + i)
  {
  }

  lemma EdgeNodeAt<T>(b64: Base64, arraySlice: seq<T>, args: ConnectionArgs, meta: SliceMeta, a: int, b: int, i: nat)
    requires MapSlice(b64, arraySlice, args, meta, a, b).Success?
    requires i < |MapSlice(b64, arraySlice, args, meta, a, b).value.edges|
    ensures var k := ClampedWindow(|arraySlice|, args, meta, a, b).start - meta.sliceStart + i;
      0 <= k < |arraySlice| && MapSlice(b64, arraySlice, args, meta, a, b).value.edges[i].node == arraySlice[k]
  {
    MapSliceEdges(b64, arraySlice, args, meta, a, b);
    WindowStartsInSlice(|arraySlice|, args, meta, a, b);
    EdgeNodeInWindow(b64, arraySlice, meta.sliceStart, ClampedWindow(|arraySlice|, args, meta, a, b), i);
  }

  /** The edges of a successful mapping are those of the clamped window. */
  lemma MapSliceEdges<T>(b64: Base64, arraySlice: seq<T>, args: ConnectionArgs, meta: SliceMeta, a: int, b: int)
    requires MapSlice(b64, arraySlice, args, meta, a, b).Success?
    ensures MapSlice(b64, arraySlice, args, meta, a, b).value.edges
            == Edges(b64, arraySlice, meta.sliceStart, ClampedWindow(|arraySlice|, args, meta, a, b))
  {
  }

  /** Edge `i` of a window has the cursor of offset `start + i`. */
  lemma EdgeCursorInWindow<T>(b64: Base64, arraySlice: seq<T>, sliceStart: int, w: Offsets, i: nat)
    requires i < |Edges(b64, arraySlice, sliceStart, w)|
    ensures Edges(b64, arraySlice, sliceStart, w)[i].cursor == OffsetToCursor(b64, w.start + i)
  {
  }

  /** Edge `i` of a window that starts inside the slice holds the slice element at its offset. */
  lemma EdgeNodeInWindow<T>(b64: Base64, arraySlice: seq<T>, sliceStart: int, w: Offsets, i: nat)
    requires w.start >= sliceStart
    requires i < |Edges(b64, arraySlice, sliceStart, w)|
    ensures 0 <= w.start - sliceStart + i < |arraySlice|
    ensures Edges(b64, arraySlice, sliceStart, w)[i].node == arraySlice[w.start - sliceStart + i]
  {
    JsSliceAt(arraySlice, w.start - sliceStart, w.end - sliceStart, i);
  }

  /**
   * When the end of the window is not below the start of the slice, the edge
   * count is at most `first`, at most `last`, at most the slice length and at
   * most the width of the window.
   */
  lemma EdgeCountBounded<T>(b64: Base64, arraySlice: seq<T>, args: ConnectionArgs, meta: SliceMeta, a: int, b: int)
    requires MapSlice(b64, arraySlice, args, meta, a, b).Success?
    requires ClampedWindow(|arraySlice|, args, meta, a, b).end >= meta.sliceStart
    ensures var w := ClampedWindow(|arraySlice|, args, meta, a, b);
      var n := |MapSlice(b64, arraySlice, args, meta, a, b).value.edges|;
      && n <= |arraySlice|
      && n <= Max(0, w.end - w.start)
      && (args.first.Some? ==> n <= args.first.value)
      && (args.last.Some? ==> n <= args.last.value)
  {
    var w := ClampedWindow(|arraySlice|, args, meta, a, b);
    WindowStartsInSlice(|arraySlice|, args, meta, a, b);
    JsSliceLength(arraySlice, w.start - meta.sliceStart, w.end - meta.sliceStart);
  }

  /**
   * Whatever the offsets decode to, the window is at most `first` wide when
   * `first` is given and at most `last` wide when `last` is given.
   */
  lemma WindowWidthBounded(sliceLength: nat, args: ConnectionArgs, meta: SliceMeta, a: int, b: int)
    ensures var w := ClampedWindow(sliceLength, args, meta, a, b);
      && (args.first.Some? ==> w.end - w.start <= args.first.value)
      && (args.last.Some? ==> w.end - w.start <= args.last.value)
  {
  }

  /**
   * Under the same condition every edge lies inside the requested window:
   * strictly after a usable `after`, strictly before a usable `before`, inside
   * the logical array and inside the slice.
   */
  lemma EdgesWithinArguments<T>(b64: Base64, arraySlice: seq<T>, args: ConnectionArgs, meta: SliceMeta,
                                a: int, b: int, i: nat)
    requires MapSlice(b64, arraySlice, args, meta, a, b).Success?
    requires ClampedWindow(|arraySlice|, args, meta, a, b).end >= meta.sliceStart
    requires i < |MapSlice(b64, arraySlice, args, meta, a, b).value.edges|
    ensures var o := ClampedWindow(|arraySlice|, args, meta, a, b).start + i;
      && 0 <= o < meta.arrayLength
      && meta.sliceStart <= o < meta.sliceStart + |arraySlice|
      && (0 <= a < meta.arrayLength ==> a < o)
      && (0 <= b < meta.arrayLength ==> o < b)
  {
    var w := ClampedWindow(|arraySlice|, args, meta, a, b);
    WindowStartsInSlice(|arraySlice|, args, meta, a, b);
    JsSliceLength(arraySlice, w.start - meta.sliceStart, w.end - meta.sliceStart);
  }

  /** `startCursor`/`endCursor` are null exactly when there are no edges, else the first and last cursors. */
  lemma PageInfoCursors<T>(b64: Base64, arraySlice: seq<T>, args: ConnectionArgs, meta: SliceMeta, a: int, b: int)
    requires MapSlice(b64, arraySlice, args, meta, a, b).Success?
    ensures var c := MapSlice(b64, arraySlice, args, meta, a, b).value;
      && (c.pageInfo.startCursor.None? <==> |c.edges| == 0)
      && (c.pageInfo.endCursor.None? <==> |c.edges| == 0)
      && (|c.edges| > 0 ==>
            c.pageInfo.startCursor == Some(c.edges[0].cursor)
            && c.pageInfo.endCursor == Some(c.edges[|c.edges| - 1].cursor))
  {
  }

  /**
   * `hasPreviousPage` is computed only for `last` and `hasNextPage` only for
   * `first`, against the bounds set by `after` and `before`.
   */
  lemma PageInfoFlags<T>(b64: Base64, arraySlice: seq<T>, args: ConnectionArgs, meta: SliceMeta, a: int, b: int)
    requires MapSlice(b64, arraySlice, args, meta, a, b).Success?
    ensures var p := MapSlice(b64, arraySlice, args, meta, a, b).value.pageInfo;
      var w := ClampedWindow(|arraySlice|, args, meta, a, b);
      && (p.hasPreviousPage <==> args.last.Some? && w.start > LowerBound(args, a))
      && (p.hasNextPage <==> args.first.Some? && w.end < UpperBound(args, meta, b))
      && (args.before.None? ==> (p.hasNextPage <==> args.first.Some? && w.end < meta.arrayLength))
      && (args.after.None? ==> (p.hasPreviousPage <==> args.last.Some? && w.start > 0))
  {
  }

  /** For a whole array the window lies inside the array. */
  lemma WholeArrayWindow(n: nat, args: ConnectionArgs, a: int, b: int)
    requires ArgumentError(args).None?
    ensures var w := ClampedWindow(n, args, SliceMeta(0, n), a, b);
      0 <= w.start <= n && 0 <= w.end <= n
  {
  }

  /**
   * For a whole array every index is non-negative: the edges are exactly the
   * elements at offsets `start .. end - 1`.
   */
  lemma WholeArrayEdges<T>(b64: Base64, data: seq<T>, args: ConnectionArgs, a: int, b: int)
    requires MapSlice(b64, data, args, SliceMeta(0, |data|), a, b).Success?
    ensures var w := ClampedWindow(|data|, args, SliceMeta(0, |data|), a, b);
      var edges := MapSlice(b64, data, args, SliceMeta(0, |data|), a, b).value.edges;
      && 0 <= w.start <= |data| && w.end <= |data|
      && |edges| == Max(0, w.end - w.start)
      && forall i :: 0 <= i < |edges| ==>
           edges[i] == Edge(OffsetToCursor(b64, w.start + i), data[w.start + i])
  {
    var meta := SliceMeta(0, |data|);
    var w := ClampedWindow(|data|, args, meta, a, b);
    WholeArrayWindow(|data|, args, a, b);
    MapSliceEdges(b64, data, args, meta, a, b);
    var edges := Edges(b64, data, 0, w);
    JsSliceLength(data, w.start, w.end);
    forall i | 0 <= i < |edges|
      ensures edges[i] == Edge(OffsetToCursor(b64, w.start + i), data[w.start + i])
    {
      EdgeCursorInWindow(b64, data, 0, w, i);
      EdgeNodeInWindow(b64, data, 0, w, i);
    }
  }

  /**
   * Paging forward: feeding a page's `endCursor` back as `after` (with the same
   * `first`) starts the next page right at the previous window's end.
   */
  lemma NextPageStartsAtEnd<T>(b64: Base64, data: seq<T>, n: nat, after: Option<string>)
    requires IsInverse(b64)
    requires SliceConnection(b64, data, ConnectionArgs(after, None, Some(n), None), SliceMeta(0, |data|)).Success?
    requires SliceConnection(b64, data, ConnectionArgs(after, None, Some(n), None), SliceMeta(0, |data|)).value.pageInfo.endCursor.Some?
    ensures var meta := SliceMeta(0, |data|);
      var page := SliceConnection(b64, data, ConnectionArgs(after, None, Some(n), None), meta).value;
      var next := ConnectionArgs(page.pageInfo.endCursor, None, Some(n), None);
      Window(b64, |data|, next, meta).start == Window(b64, |data|, ConnectionArgs(after, None, Some(n), None), meta).end
  {
    var meta := SliceMeta(0, |data|);
    var args := ConnectionArgs(after, None, Some(n), None);
    var a, b := AfterOffset(b64, args), BeforeOffset(b64, |data|, args, meta);
    var w := ClampedWindow(|data|, args, meta, a, b);
    assert SliceConnection(b64, data, args, meta) == MapSlice(b64, data, args, meta, a, b);
    assert Window(b64, |data|, args, meta) == w;
    LastEdgeCursor(b64, data, args, a, b);
    var next := ConnectionArgs(Some(OffsetToCursor(b64, w.end - 1)), None, Some(n), None);
    OffsetOfEncodedCursor(b64, w.end - 1, -1);
    assert AfterOffset(b64, next) == w.end - 1;
    var b' := BeforeOffset(b64, |data|, next, meta);
    assert Window(b64, |data|, next, meta) == ClampedWindow(|data|, next, meta, w.end - 1, b');
    NextWindowStart(|data|, next, meta, w.end - 1, b');
    assert next == ConnectionArgs(SliceConnection(b64, data, args, meta).value.pageInfo.endCursor, None, Some(n), None);
  }

  /** Over a whole array a non-null `endCursor` is the cursor of the offset just below the window's end. */
  lemma LastEdgeCursor<T>(b64: Base64, data: seq<T>, args: ConnectionArgs, a: int, b: int)
    requires MapSlice(b64, data, args, SliceMeta(0, |data|), a, b).Success?
    requires MapSlice(b64, data, args, SliceMeta(0, |data|), a, b).value.pageInfo.endCursor.Some?
    ensures var w := ClampedWindow(|data|, args, SliceMeta(0, |data|), a, b);
      && 0 < w.end <= |data|
      && MapSlice(b64, data, args, SliceMeta(0, |data|), a, b).value.pageInfo.endCursor
         == Some(OffsetToCursor(b64, w.end - 1))
  {
    WholeArrayEdges(b64, data, args, a, b);
  }

  /** A usable `after` offset inside a whole array starts the window right after it. */
  lemma NextWindowStart(len: nat, args: ConnectionArgs, meta: SliceMeta, a: int, b: int)
    requires meta == SliceMeta(0, len) && 0 <= a < len
    ensures ClampedWindow(len, args, meta, a, b).start >= a + 1
    ensures args.last.None? ==> ClampedWindow(len, args, meta, a, b).start == a + 1
  {
  }

  /**
   * When `before` points below the start of the slice the end index is
   * negative and `Array.prototype.slice` counts it from the end: a slice of ten
   * starting at offset 5 with `before` = cursor(3) yields eight edges, with
   * cursors 5..12, none of them before the `before` cursor.
   */
  lemma NegativeEndIndexKeepsEdges(b64: Base64, s: seq<int>)
    requires IsInverse(b64)
    requires |s| == 10
    ensures var args := ConnectionArgs(None, Some(OffsetToCursor(b64, 3)), None, None);
      var r := SliceConnection(b64, s, args, SliceMeta(5, 20));
      && r.Success? && |r.value.edges| == 8 && r.value.edges[0].cursor == OffsetToCursor(b64, 5)
      && CursorToOffset(b64, r.value.edges[0].cursor) == Some(5)
      && !(CursorToOffset(b64, r.value.edges[0].cursor).value < CursorToOffset(b64, args.before.value).value)
  {
    CursorRoundTrip(b64, 3);
    CursorRoundTrip(b64, 5);
  }

  /**
   * The bound of `EdgeCountBounded` needs its condition on the end index: a
   * slice of ten at offset 5 in an array of 20, with `before` = cursor(3) and
   * `first: 2`, yields eight edges, more than `first`.
   */
  lemma FirstBoundBrokenByNegativeEnd(b64: Base64, s: seq<int>)
    requires IsInverse(b64)
    requires |s| == 10
    ensures var args := ConnectionArgs(None, Some(OffsetToCursor(b64, 3)), Some(2), None);
      var r := SliceConnection(b64, s, args, SliceMeta(5, 20));
      && ClampedWindow(|s|, args, SliceMeta(5, 20), -1, 3).end < 5
      && r.Success? && |r.value.edges| == 8 && |r.value.edges| > args.first.value
  {
    CursorRoundTrip(b64, 3);
    var args := ConnectionArgs(None, Some(OffsetToCursor(b64, 3)), Some(2), None);
    assert AfterOffset(b64, args) == -1;
    assert BeforeOffset(b64, |s|, args, SliceMeta(5, 20)) == 3;
    assert ClampedWindow(|s|, args, SliceMeta(5, 20), -1, 3) == Offsets(5, 3);
    assert |JsSlice(s, 0, -2)| == 8;
  }

  /** The three-item example: `first: 2` over `[A, B, C]`. */
  lemma FirstTwoOfThree(b64: Base64)
    ensures SliceConnection(b64, ['A', 'B', 'C'], ConnectionArgs(None, None, Some(2), None), SliceMeta(0, 3))
      == Success(Connection(
           [Edge(OffsetToCursor(b64, 0), 'A'), Edge(OffsetToCursor(b64, 1), 'B')],
           PageInfo(Some(OffsetToCursor(b64, 0)), Some(OffsetToCursor(b64, 1)), false, true)))
  {
    var args := ConnectionArgs(None, None, Some(2), None);
    var w := Window(b64, 3, args, SliceMeta(0, 3));
    assert w == Offsets(0, 2);
    assert JsSlice(['A', 'B', 'C'], 0, 2) == ['A', 'B'];
    assert Edges(b64, ['A', 'B', 'C'], 0, w)
      == [Edge(OffsetToCursor(b64, 0), 'A'), Edge(OffsetToCursor(b64, 1), 'B')];
  }

  /** The empty example: no edges, no cursors, and flags false for absent arguments. */
  lemma EmptyArray<T>(b64: Base64, args: ConnectionArgs)
    requires ArgumentError(args).None?
    ensures var r := SliceConnection<T>(b64, [], args, SliceMeta(0, 0));
      && r.Success? && r.value.edges == []
      && r.value.pageInfo.startCursor.None? && r.value.pageInfo.endCursor.None?
      && (args.last.None? ==> !r.value.pageInfo.hasPreviousPage)
      && (args.first.None? ==> !r.value.pageInfo.hasNextPage)
  {
  }

  // ---------------------------------------------------------------------------
  // cursorForObjectInConnection

  /** `data.indexOf(x)`, with `None` for -1. */
  function IndexOf<T(==)>(data: seq<T>, x: T): (r: Option<nat>)
    ensures r.None? <==> x !in data
    ensures r.Some? ==> r.value < |data| && data[r.value] == x
                        && forall j :: 0 <= j < r.value ==> data[j] != x
  {
    if |data| == 0 then None
    else if data[0] == x then Some(0)
    else match IndexOf(data[1..], x)
      case None => None
      case Some(k) => Some(k + 1)
  }

  /** `cursorForObjectInConnection`: the cursor of the first occurrence, or null. */
  function CursorForObjectInConnection<T(==)>(b64: Base64, data: seq<T>, x: T): (r: Option<string>)
    ensures r.None? <==> x !in data
    ensures r.Some? ==> exists k :: 0 <= k < |data| && data[k] == x
                         && (forall j :: 0 <= j < k ==> data[j] != x)
                         && r.value == OffsetToCursor(b64, k)
  {
    match IndexOf(data, x)
    case None => None
    case Some(k) => Some(OffsetToCursor(b64, k))
  }

  /** The cursor found for an object decodes to the index of its first occurrence. */
  lemma CursorForObjectDecodes<T>(b64: Base64, data: seq<T>, x: T)
    requires IsInverse(b64)
    requires x in data
    ensures var c := CursorForObjectInConnection(b64, data, x);
      c.Some? && CursorToOffset(b64, c.value).Some?
      && var k := CursorToOffset(b64, c.value).value;
      0 <= k < |data| && data[k] == x && forall j :: 0 <= j < k ==> data[j] != x
  {
    var k := IndexOf(data, x).value;
    CursorRoundTrip(b64, k);
  }
}
