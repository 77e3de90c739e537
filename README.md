# archive.org GraphQL gateway: pagination, search windowing and ZIP listing in Dafny

This project models the core of a GraphQL gateway in front of the Internet
Archive's public APIs. Every file under `src/graphql/...` cited below belongs to
that gateway.

- **Cursor codec and slice-to-connection mapper**
  (`src/graphql/helpers/arrayConnections.ts`, module `ArrayConnections`).
  - Offsets become opaque cursors through a base64 pair and `"arrayconnection:"` + decimal.
  - Decoding a cursor skips sixteen characters and applies JavaScript `parseInt` to the rest.
  - `connectionFromArraySlice` clamps a window of offsets. It reassigns step by step, and the model renders it as a method proved equal to the function `SliceConnection`.
  - `SliceConnection` is `MapSlice` applied to the offsets the `after` and `before` cursors decode to. Most properties of the mapper hold for any decoded offsets and are stated on `MapSlice`.
  - From the window it builds edges and page info, or raises one of its two usage errors.
- **Windowed search** (`search` in `src/graphql/models/SearchConnection.ts`, module `SearchConnection`).
  - `first`/`after` become a run of 50-row remote pages.
  - A loop fetches those pages in order and concatenates them. It is the method `FetchPages`, proved equal to the function `Gather`.
  - The rows go to the mapper.
  - The remote service is a parameter function. When it returns `None`, the request failed.
- **Search query string** (`src/graphql/network/search.ts`, module `SearchApi`). It builds `q`, `rows` and `page`.
- **ZIP central-directory listing** (`src/graphql/network/zipContent.ts`, module `ZipContent`).
  - It reads the end-of-central-directory fields and walks the central file headers of an archive held as bytes.
  - The walk follows section 4.3.12 of PKWARE's APPNOTE.TXT.
  - The end-record read departs from section 4.3.16: the code takes the directory size from byte 10 of the record, which holds the total entry count, instead of byte 12. `ListArchive` models the listing as written. `ListArchiveAppnote` is the listing with the size read at byte 12 (see "## Findings").
- **Object types** (modules `Metadata`, `Models`, `Items`, `Collections`, `ItemFiles`).
  - `Item`, `Collection` and `ItemFile` are values built from the metadata service's records.
  - Covered: the file filter, the thumbnail, the collection names, the URLs, the `.zip` test, the member search a collection starts, and the item/collection type checks.

JavaScript number semantics appear only where the code depends on them, and the model writes each one out:

- `%` truncates toward zero (`JsRemainder`);
- `Math.ceil` is `CeilDiv`;
- `Array.prototype.slice` counts negative indices from the end (`JsSlice`);
- `parseInt` skips leading whitespace, takes an optional sign and the longest digit prefix, and gives NaN otherwise. NaN is `None` (`Decimal.ParseInt`).

Numbers are otherwise unbounded integers. The base64 functions are a parameter `Base64(encode, decode)`. Properties that need them to be inverse take `IsInverse(b64)` as a precondition.

## Model

| member | source | states |
|---|---|---|
| ArrayConnections.GetOffsetWithDefault | src/graphql/helpers/arrayConnections.ts:161-170 | the default for a missing cursor or one that decodes to NaN, the decoded offset otherwise |
| ArrayConnections.CursorRoundTrip | src/graphql/helpers/arrayConnections.ts:126-140 | decoding the cursor of any integer offset gives that offset back, for an inverse base64 pair |
| ArrayConnections.CursorsDistinct | src/graphql/helpers/arrayConnections.ts:131-133 | for an inverse base64 pair, two offsets have the same cursor iff they are equal |
| ArrayConnections.OffsetOfEncodedCursor | src/graphql/helpers/arrayConnections.ts:161-170 | a cursor made by the codec always overrides the default |
| ArrayConnections.PrefixIgnored | src/graphql/helpers/arrayConnections.ts:138-140 | whatever the first sixteen decoded characters are, the offset is `parseInt` of the remainder |
| ArrayConnections.GarbageCursorIsNaN | src/graphql/helpers/arrayConnections.ts:138-140 | a remainder without digits decodes to NaN, so every default is kept |
| ArrayConnections.NegativeCursorDecodes | src/graphql/helpers/arrayConnections.ts:138-140 | `"arrayconnection:-5"` decodes to -5 |
| ArrayConnections.ClampOffsets | src/graphql/helpers/arrayConnections.ts:56-84 | the step-by-step updates of `startOffset`/`endOffset` end in `ClampedWindow` of the decoded `after`/`before` offsets, or in the usage error `first` then `last` provokes |
| ArrayConnections.ConnectionFromArraySlice | src/graphql/helpers/arrayConnections.ts:49-111 | the step-by-step clamping returns exactly `SliceConnection`, the connection or the usage error |
| ArrayConnections.ConnectionFromArray | src/graphql/helpers/arrayConnections.ts:19-27 | equals the slice mapper with `sliceStart = 0` and `arrayLength = data.length` |
| ArrayConnections.NegativeArgumentsRejected | src/graphql/helpers/arrayConnections.ts:71-84 | a negative `first` throws its error, else a negative `last` throws its error, and only these throw |
| ArrayConnections.EdgeAt | src/graphql/helpers/arrayConnections.ts:87-95 | for any decoded `after`/`before` offsets, edge `i` has the cursor of offset `start + i` and the slice element `start - sliceStart + i` |
| ArrayConnections.EdgeCountBounded | src/graphql/helpers/arrayConnections.ts:76-90 | for any decoded offsets, with the end index non-negative, the edge count is at most `first`, `last`, the slice length and the window width |
| ArrayConnections.EdgesWithinArguments | src/graphql/helpers/arrayConnections.ts:58-90 | with the end index non-negative, every edge offset lies in the array and the slice, after a usable decoded `after` and before a usable decoded `before` |
| ArrayConnections.WindowWidthBounded | src/graphql/helpers/arrayConnections.ts:76-84 | for any decoded offsets and with no condition on the end index, the window `endOffset - startOffset` is at most `first` when given and at most `last` when given |
| ArrayConnections.PageInfoCursors | src/graphql/helpers/arrayConnections.ts:97-105 | start/end cursors are null exactly when there are no edges, else the first and last edge cursors |
| ArrayConnections.PageInfoFlags | src/graphql/helpers/arrayConnections.ts:99-108 | `hasPreviousPage` iff `last` is given and start > lower bound (one past `after`, or 0); `hasNextPage` iff `first` is given and end < upper bound (`before`, or the array length) |
| ArrayConnections.WholeArrayEdges | src/graphql/helpers/arrayConnections.ts:19-27 | over a whole array the edges are exactly the elements at offsets `start .. end - 1` with their cursors |
| ArrayConnections.NextPageStartsAtEnd | src/graphql/helpers/arrayConnections.ts:92-108 | over a whole array, paging forward with `first` only (no `last`, no `before`), feeding `endCursor` back as `after` starts the next window where the previous one ended |
| ArrayConnections.FirstBoundBrokenByNegativeEnd | src/graphql/helpers/arrayConnections.ts:76-90 | a ten-row slice at 5 in an array of 20, `before` = cursor(3), `first: 2`: the end index is negative and eight edges come back, more than `first` |
| ArrayConnections.NegativeEndIndexKeepsEdges | src/graphql/helpers/arrayConnections.ts:87-90 | a `before` below the slice start makes the end index negative; `slice` then counts from the end and keeps eight edges, the first of which decodes to offset 5, not below the `before` offset 3 |
| ArrayConnections.FirstTwoOfThree | src/graphql/helpers/arrayConnections.ts:49-111 | `first: 2` over `[A, B, C]` gives edges A and B, cursors 0 and 1, and a next page |
| ArrayConnections.EmptyArray | src/graphql/helpers/arrayConnections.ts:97-108 | an empty array gives no edges, null cursors, and false flags for absent arguments |
| ArrayConnections.IndexOf | src/graphql/helpers/arrayConnections.ts:149-152 | `None` iff absent, else the first index holding the object |
| ArrayConnections.CursorForObjectInConnection | src/graphql/helpers/arrayConnections.ts:145-154 | null iff the object is absent, else the cursor of its first index |
| ArrayConnections.CursorForObjectDecodes | src/graphql/helpers/arrayConnections.ts:145-154 | that cursor decodes to the first index of the object |
| Decimal.ParseIntRoundTrip | src/graphql/helpers/arrayConnections.ts:131-139 | `parseInt` of `toString` of any integer is that integer |
| Decimal.NatToString | src/graphql/helpers/arrayConnections.ts:132 | a non-empty digit string without a leading zero, except for 0 itself |
| SearchApi.SearchParams | src/graphql/network/search.ts:23-43 | the parameters in order: `q`, two `fl[]`, `rows` and `page` in decimal, `output=json` |
| SearchApi.QueryTextEmpty | src/graphql/network/search.ts:24-36 | `q` is empty iff neither a truthy query nor a truthy collection is given; null and `""` are alike |
| SearchApi.QueryTextOrder | src/graphql/network/search.ts:29-35 | with both segments, the query segment comes first and the collection segment last |
| SearchApi.RowsAndPageAreDecimal | src/graphql/network/search.ts:41-42 | `rows` and `page` parse back to the numbers sent |
| SearchConnection.Search | src/graphql/models/SearchConnection.ts:54-102 | the result and the calls made: for a NaN `after`, no calls and an empty connection; otherwise the gathered pages, then a transport failure or the mapper result with `count = countFound` |
| SearchConnection.FetchPages | src/graphql/models/SearchConnection.ts:75-90 | the loop leaves exactly the state `Gather` describes after `pagesToFetch` pages |
| SearchConnection.GatherStopsAfterFailure | src/graphql/models/SearchConnection.ts:78-90 | after a failed call no later page is requested |
| SearchConnection.GatherInOrder | src/graphql/models/SearchConnection.ts:75-100 | calls are for pages `startPage + i` in order; no failure iff every page answers; then `docs` is the pages' rows in page order and `countFound` is the last `numFound` |
| SearchConnection.WindowSplit | src/graphql/models/SearchConnection.ts:64-70 | for `startIndex >= 0`: `startPage * 50 + offset == startIndex` and `0 <= offset < 50` |
| SearchConnection.NegativeWindowSplit | src/graphql/models/SearchConnection.ts:69-70 | for a negative start off a page boundary, floor and truncating remainder land one page too low |
| SearchConnection.PagesToFetchIsLeast | src/graphql/models/SearchConnection.ts:67-73 | `pagesToFetch` is the least page count covering `offset + first + 1` rows |
| SearchConnection.AtLeastOnePage | src/graphql/models/SearchConnection.ts:67-73 | at least one page is fetched when `first >= 0` and the start is non-negative |
| SearchConnection.NoPageForNegativeStart | src/graphql/models/SearchConnection.ts:64-100 | `after` = `"arrayconnection:-5"` with `first: 0`: start -5, zero pages, no call, and a connection with no edges, count 0 and a next page |
| SearchConnection.AlignedExactlyOnPageBoundary | src/graphql/models/SearchConnection.ts:69-70 | for every start, negative ones included, `docs[0]` is row `startIndex` iff `startIndex % 50 == 0` |
| SearchConnection.DefaultRequest | src/graphql/models/SearchConnection.ts:57-73 | without `first` and `after`: first 10, start 0, one call, for page 0 |
| SearchConnection.WindowExample | src/graphql/models/SearchConnection.ts:64-73 | `startIndex = 120`, `first = 10`: page 2, offset 20, one page |
| SearchConnection.FetchExample | src/graphql/models/SearchConnection.ts:75-90 | ... and exactly one call, for page 2 with 50 rows |
| SearchConnection.EdgeRowVersusCursor | src/graphql/models/SearchConnection.ts:92-96 | for `startIndex >= 0`, edge `i` has the cursor of offset `start + i` but the row `start + i - offset`; they agree iff `startIndex % 50 == 0` |
| ZipContent.WrittenReadMixesFields | src/graphql/network/zipContent.ts:10-12 | the size read at byte 10 is the entry count plus 65536 times the low half of the real size |
| ZipContent.WrittenReadMisreadsSize | src/graphql/network/zipContent.ts:12 | three entries in a 65536-byte directory are read as a 3-byte directory; reading at byte 12 gives 65536 |
| ZipContent.WrittenReadFailsListing | src/graphql/network/zipContent.ts:12-30 | with that misread, a server returning exactly the requested range makes the first signature read fail |
| ZipContent.AppnoteReadRecoversFields | src/graphql/network/zipContent.ts:10-12 | reading the size at byte 12 recovers both the offset and the size of any end record |
| ZipContent.ReadEndRecord | src/graphql/network/zipContent.ts:10-12 | a range error for a tail shorter than 20 bytes, else the offset as the little-endian u32 at byte 16 and the "size" as the one at byte 10 |
| ZipContent.ListDirectory | src/graphql/network/zipContent.ts:14-46 | the listing of a read end record: the inclusive range `offset .. offset + size - 1` is requested and the walk of `size` bytes over what comes back gives the names or a `RangeError` |
| ZipContent.ListArchive | src/graphql/network/zipContent.ts:2-47 | the listing as written: a range error for a short tail, else the directory range requested with the size read at byte 10, and the walk over what comes back |
| ZipContent.ListArchiveAppnote | src/graphql/network/zipContent.ts:10-47 | the corrected listing: the same steps with the size read at byte 12, where section 4.3.16 of APPNOTE.TXT puts it |
| ZipContent.AppnoteListingRequestsDirectory | src/graphql/network/zipContent.ts:15-30 | with the corrected read, a well-formed end record makes the listing request exactly its directory range and walk all of its bytes |
| ZipContent.ListZipContents | src/graphql/network/zipContent.ts:25-46 | the loop returns the names of the walk from offset 0, or the range error the walk reaches |
| ZipContent.WalkShape | src/graphql/network/zipContent.ts:29-43 | records chain from offset 0, each just after the previous name, extra field and comment, with the signature, the lengths at +28/+30/+32 and the name at +46; after the last one the walk stops at the size or a wrong signature |
| ZipContent.WalkOffsetsIncrease | src/graphql/network/zipContent.ts:43 | each record starts at least 46 bytes after the previous one |
| ZipContent.EmptyDirectory | src/graphql/network/zipContent.ts:29 | a zero size lists nothing |
| Metadata.CollectionNames | src/graphql/models/Item.ts:89-98 | absent gives `[]`, a string `s` gives `[s]`, a list gives itself |
| Collections.CollectionNamesOf | src/graphql/models/Collection.ts:54-63 | absent gives `[]`, a string gives a singleton, a list gives itself |
| Metadata.CollectionNamesCollide | src/graphql/models/Item.ts:89-98 | it confuses only a single name with a one-element list, and absence with an empty list |
| Metadata.DetailsUrl | src/graphql/models/Item.ts:31-33 | `"https://archive.org/details/"` followed by the identifier |
| Collections.Url | src/graphql/models/Collection.ts:26-28 | `"https://archive.org/details/"` followed by the collection identifier |
| Metadata.DetailsUrlInjective | src/graphql/models/Item.ts:31-33 | distinct identifiers have distinct URLs |
| Models.ItemLikeOf | src/graphql/models/ItemLike.ts:44-53 | a failed load gives "Failed to fetch item"; otherwise a collection iff `is_collection` is true, built from the loaded response |
| Models.WrapFiles | src/graphql/models/Item.ts:84-86 | one `ItemFile` per file, in order, owned by the identifier |
| Items.UserFiles | src/graphql/models/Item.ts:73-83 | a file is kept iff it is not metadata-sourced, `Metadata`, `Archive BitTorrent` or `Item Tile` |
| Items.UserFilesAppend | src/graphql/models/Item.ts:75-82 | the filter distributes over concatenation, so it keeps order |
| Items.Files | src/graphql/models/Item.ts:66-87 | all files when `includeMetadata` is true, the user files otherwise, wrapped in order |
| Items.FilesWithoutMetadata | src/graphql/models/Item.ts:73-86 | without `includeMetadata`, a file is listed iff it is in the item and not archive-generated |
| Items.FilesWithMetadata | src/graphql/models/ItemFile.ts:37-65 | with `includeMetadata`, file `i` is listed and its getters return the response's own fields |
| Items.FirstTile | src/graphql/models/Item.ts:53-55 | `None` iff no tile, else the first index with format `Item Tile` |
| Items.Thumbnail | src/graphql/models/Item.ts:52-61 | null iff no file is a tile, else the first tile file of the item |
| Items.ThumbnailIsGenerated | src/graphql/models/Item.ts:52-83 | the thumbnail is never listed without `includeMetadata` |
| Items.ItemOf | src/graphql/models/Item.ts:116-122 | a failed load gives "Failed to fetch item", a collection gives "Item is not an item", else the item |
| Collections.Files | src/graphql/models/Collection.ts:48-52 | every response file, unfiltered and in order |
| Collections.FilesAsItem | src/graphql/models/Collection.ts:48-52 | equals the item listing with `includeMetadata` and includes any filtered listing |
| Collections.Members | src/graphql/models/Collection.ts:77-83 | a search with query null, `{collection: identifier}`, `first` defaulting to 10, and `after` |
| Collections.MembersQuery | src/graphql/models/Collection.ts:77-83 | its `q` is `(collection:<identifier>)`, or empty for an empty identifier |
| Collections.CollectionOf | src/graphql/models/Collection.ts:90-99 | a failed load gives "Failed to fetch item", an item gives "Item is not a collection", else the collection |
| Collections.ItemOrCollection | src/graphql/models/Collection.ts:90-99 | a loaded identifier is accepted by exactly one of the two lookups |
| ItemFiles.IsZipNameChars | src/graphql/models/ItemFile.ts:24 | the `.zip` test holds iff the name ends in `.` then `z`, `i`, `p` in either case |
| ItemFiles.ZipContentOf | src/graphql/models/ItemFile.ts:23-32 | null iff not `.zip`; else the listing's error, or one entry per listed name, in order, with the item id and archive name |
| ItemFiles.DownloadUrl | src/graphql/models/ItemFile.ts:72-74 | `"https://archive.org/download/"` followed by `itemId/name` |
| ItemFiles.CorsUrl | src/graphql/models/ItemFile.ts:81-83 | `"https://archive.org/cors/"` followed by `itemId/name` |
| ItemFiles.DownloadUrlInjective | src/graphql/models/ItemFile.ts:72-74 | for slash-free ids the URL determines the id and the name |
| ItemFiles.CorsUrlInjective | src/graphql/models/ItemFile.ts:81-83 | the same for the CORS URL, which shares its path with the download URL |

## Left out

- The base64 implementation is not part of this model. The codec takes it as a parameter, and the round trips assume `IsInverse`.
- Network I/O is left out: `fetch`, JSONP, the HTTP range requests, `loadItem`, timing and logging. The remote search, the range fetch, the metadata loader and the ZIP lister are parameter functions.
- `TextDecoder` UTF-8 decoding is left out: ZIP entry names stay byte sequences.
- The Promise wrappers are left out because they add nothing to the logic: `connectionFromPromisedArray`, `connectionFromPromisedArraySlice`, and the async `edges`/`nodes` thunks of `ItemSearchConnection`.
- `collections()` on items and collections is left out: it maps names to promised lookups, and its `null` filter never removes anything.
- DataLoader batching and caching in `context.ts` are left out. `itemLike` loads twice (the lookup, then one of the two constructor loads); the model loads once, which matches a cache that returns the same response each time.
- Doubles are left out:
  - NaN appears only as `None` from `parseInt`;
  - non-integer numbers are not modelled;
  - the exponent form `toString` uses from 1e21 up is not modelled;
  - `first` and offsets are unbounded integers.
- An explicit GraphQL `null` for `first`, as opposed to an omitted argument, is not modelled. `None` is the omitted argument and gets the default 10.
- Strings are sequences of characters, not UTF-16 code units. `toLowerCase` is modelled for ASCII letters only.
- URL building leaves out percent-encoding by `URLSearchParams` and the JSONP `callback` parameter appended later.
- The ZIP reader assumes a tail with no archive comment: the model reads the 22 bytes it is given, as the code does.
- The getters `identifier`, `title` and `description` of items and collections are left out: each returns a record field.
- The getters of `ItemFile` are member functions of `Models.ItemFile`; `Items.FilesWithMetadata` states them.
- `ItemFile.item` is `Models.ItemLikeOf` applied to the file's item identifier.
- `ZipContent.ts` (the zip entry object type) is left out: it is thin getters whose URLs interpolate a method instead of the file name. `Models.ZipEntry` records only what its constructor receives.
- ArrayConnections.EdgeCountBounded: the edge count is bounded by `first`, `last` and the slice length only when the window's end is not below the slice start. With `before` below `sliceStart` the code passes a negative end index to `Array.prototype.slice`, and the bound fails even for an array long enough to hold the slice; `FirstBoundBrokenByNegativeEnd` gives the input.
- ArrayConnections.EdgesWithinArguments: every edge lies before a usable `before` only when the window's end is not below the slice start. With `before` below `sliceStart` the negative end index makes `Array.prototype.slice` keep edges at and after the `before` offset; `NegativeEndIndexKeepsEdges` gives the input (a slice of ten at 5, array length 20, `before` offset 3: the first edge is at offset 5).
- ArrayConnections.NextPageStartsAtEnd: stated only for a whole array paged forward with `first` alone. With `last` the window is cut from its end, so the next page need not start at the previous end: over 10 items with `first: 5` and `last: 2` the window is 3..5, and `after` = cursor(4) gives the window 8..10.
- SearchConnection.EdgeRowVersusCursor: stated only for `startIndex >= 0`. For a negative start off a page boundary the floor and the truncating remainder put `docs[0]` at row `startIndex - offset - 50` (see `NegativeWindowSplit`), so the row formula differs there.
- ArrayConnections.IndexOf: `indexOf` compares with `===`, which is reference identity for objects and never matches NaN; the model compares with the element type's structural equality, so two equal but distinct objects count as the same element here.
- SearchConnection.AtLeastOnePage: at least one page is fetched only for a non-negative start. A cursor that decodes to a negative offset can make the page count 0 even with `first >= 0`; `NoPageForNegativeStart` gives the input.
- ItemFiles.DownloadUrlInjective: stated only for identifiers without a slash; with a slash in the identifier the URL is ambiguous.

## Findings

| source | as written | input that shows it | evidently intended | confidence | as-written member | corrected member |
|---|---|---|---|---|---|---|
| src/graphql/network/zipContent.ts:12 | the central-directory size is read as the little-endian u32 at byte 10 of the tail, which holds the total entry count and the low half of the size | an end record with 3 entries and a 65536-byte directory at offset 100 reads as size 3; a server that returns exactly the requested 3 bytes then makes the first signature read throw | the u32 at byte 12, where section 4.3.16 of APPNOTE.TXT puts the size | not executed | ZipContent.ReadEndRecord, ZipContent.ListArchive, ZipContent.WrittenReadMisreadsSize, ZipContent.WrittenReadFailsListing | ZipContent.ReadEndRecordAppnote, ZipContent.AppnoteReadRecoversFields, ZipContent.ListArchiveAppnote, ZipContent.AppnoteListingRequestsDirectory |
