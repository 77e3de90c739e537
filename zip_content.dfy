/**
 * Listing the file names of a ZIP archive from its tail and its central
 * directory (src/graphql/network/zipContent.ts). The two HTTP range requests
 * are not part of this model: the 22-byte tail and the directory bytes are
 * inputs. `DataView` and `Uint8Array` throw a `RangeError` when a read runs
 * past the buffer; that is `Failure(RangeError)` here. File names stay bytes
 * (the UTF-8 decoding is not modelled).
 */
module ZipContent {
  import opened Wrappers

  type byte = x: int | 0 <= x < 256

  datatype ZipError = RangeError

  const END_SIZE: nat := 22
  const CENTRAL_HEADER_SIGNATURE: nat := 0x02014b50
  const END_RECORD_SIGNATURE: nat := 0x06054b50
  const CENTRAL_HEADER_SIZE: nat := 46

  /** `getUint16(at, true)`. */
  function U16(buf: seq<byte>, at: nat): (v: nat)
    requires at + 2 <= |buf|
    ensures v < 0x1_0000
  {
    buf[at] as nat + 0x100 * buf[at + 1] as nat
  }

  /** `getUint32(at, true)`. */
  function U32(buf: seq<byte>, at: nat): (v: nat)
    requires at + 4 <= |buf|
    ensures v < 0x1_0000_0000
  {
    U16(buf, at) + 0x1_0000 * U16(buf, at + 2)
  }

  /** The two fields the listing reads from the end record. */
  datatype EndFields = EndFields(centralDirOffset: nat, centralDirSize: nat)

  /**
   * Lines 10-12 as written: the offset from byte 16 of the tail and the "size"
   * from byte 10, which is where the end record keeps its total entry count.
   */
  function ReadEndRecord(tail: seq<byte>): (r: Result<EndFields, ZipError>)
    ensures r.Failure? <==> |tail| < 20
    ensures r.Success? ==> r.value == EndFields(U32(tail, 16), U32(tail, 10))
  {
    if |tail| < END_SIZE - 6 + 4 then Failure(RangeError)
    else Success(EndFields(U32(tail, END_SIZE - 6), U32(tail, END_SIZE - 12)))
  }

  /** The same reads with the size taken from byte 12, as the end record lays it out. */
  function ReadEndRecordAppnote(tail: seq<byte>): (r: Result<EndFields, ZipError>)
    ensures r.Failure? <==> |tail| < 20
    ensures r.Success? ==> r.value == EndFields(U32(tail, 16), U32(tail, 12))
  {
    if |tail| < END_SIZE - 6 + 4 then Failure(RangeError)
    else Success(EndFields(U32(tail, 16), U32(tail, 12)))
  }

  function LE16(v: nat): (r: seq<byte>)
    requires v < 0x1_0000
    ensures |r| == 2 && U16(r, 0) == v
  {
    [v % 0x100, v / 0x100]
  }

  function LE32(v: nat): (r: seq<byte>)
    requires v < 0x1_0000_0000
    ensures |r| == 4
  {
    LE16(v % 0x1_0000) + LE16(v / 0x1_0000)
  }

  /**
   * An end of central directory record of a single-disk archive without a
   * comment (section 4.3.16 of PKWARE's APPNOTE.TXT): signature, two disk
   * numbers, the entry counts, the directory size, the directory offset and
   * the comment length.
   */
  function EndRecord(entries: nat, size: nat, offset: nat): (r: seq<byte>)
    requires entries < 0x1_0000 && size < 0x1_0000_0000 && offset < 0x1_0000_0000
    ensures |r| == END_SIZE
  {
    LE32(END_RECORD_SIGNATURE) + LE16(0) + LE16(0) + LE16(entries) + LE16(entries)
      + LE32(size) + LE32(offset) + LE16(0)
  }

  lemma U16Within(a: seq<byte>, b: seq<byte>, c: seq<byte>)
    requires |b| == 2
    ensures U16(a + b + c, |a|) == U16(b, 0)
  {
    assert (a + b + c)[|a|] == b[0] && (a + b + c)[|a| + 1] == b[1];
  }

  lemma U32Within(a: seq<byte>, v: nat, c: seq<byte>)
    requires v < 0x1_0000_0000
    ensures U32(a + LE32(v) + c, |a|) == v
  {
    var lo := LE16(v % 0x1_0000);
    var hi := LE16(v / 0x1_0000);
    assert a + LE32(v) + c == a + lo + (hi + c);
    U16Within(a, lo, hi + c);
    assert a + LE32(v) + c == (a + lo) + hi + c;
    U16Within(a + lo, hi, c);
  }

  /** Reading at byte 12 recovers both fields of a well-formed end record. */
  lemma AppnoteReadRecoversFields(entries: nat, size: nat, offset: nat)
    requires entries < 0x1_0000 && size < 0x1_0000_0000 && offset < 0x1_0000_0000
    ensures ReadEndRecordAppnote(EndRecord(entries, size, offset)) == Success(EndFields(offset, size))
  {
    var head := LE32(END_RECORD_SIGNATURE) + LE16(0) + LE16(0) + LE16(entries) + LE16(entries);
    assert |head| == 12;
    assert EndRecord(entries, size, offset) == head + LE32(size) + (LE32(offset) + LE16(0));
    U32Within(head, size, LE32(offset) + LE16(0));
    assert EndRecord(entries, size, offset) == (head + LE32(size)) + LE32(offset) + LE16(0);
    U32Within(head + LE32(size), offset, LE16(0));
  }

  /**
   * Reading at byte 10 yields the entry count plus 65536 times the low half of
   * the size, not the size.
   */
  lemma WrittenReadMixesFields(entries: nat, size: nat, offset: nat)
    requires entries < 0x1_0000 && size < 0x1_0000_0000 && offset < 0x1_0000_0000
    ensures ReadEndRecord(EndRecord(entries, size, offset))
      == Success(EndFields(offset, entries + 0x1_0000 * (size % 0x1_0000)))
  {
    var record := EndRecord(entries, size, offset);
    var head := LE32(END_RECORD_SIGNATURE) + LE16(0) + LE16(0) + LE16(entries);
    assert |head| == 10;
    assert record == head + LE16(entries) + (LE32(size) + LE32(offset) + LE16(0));
    U16Within(head, LE16(entries), LE32(size) + LE32(offset) + LE16(0));
    var lo := LE16(size % 0x1_0000);
    assert record == (head + LE16(entries)) + lo + (LE16(size / 0x1_0000) + LE32(offset) + LE16(0));
    U16Within(head + LE16(entries), lo, LE16(size / 0x1_0000) + LE32(offset) + LE16(0));
    AppnoteReadRecoversFields(entries, size, offset);
  }

  /** A directory of 65536 bytes holding three entries is read as three bytes long. */
  lemma WrittenReadMisreadsSize()
    ensures ReadEndRecord(EndRecord(3, 0x1_0000, 100)) == Success(EndFields(100, 3))
    ensures ReadEndRecordAppnote(EndRecord(3, 0x1_0000, 100)) == Success(EndFields(100, 0x1_0000))
  {
    WrittenReadMixesFields(3, 0x1_0000, 100);
    AppnoteReadRecoversFields(3, 0x1_0000, 100);
  }

  // ---------------------------------------------------------------------------
  // The central-directory walk

  /** One accepted central file header (section 4.3.12 of APPNOTE.TXT). */
  datatype CentralHeader = CentralHeader(
    offset: nat, nameLength: nat, extraLength: nat, commentLength: nat, name: seq<byte>)

  function NextOffset(h: CentralHeader): nat
  {
    h.offset + CENTRAL_HEADER_SIZE + h.nameLength + h.extraLength + h.commentLength
  }

  /** The three length fields and the name can be read from `offset` without a `RangeError`. */
  predicate HeaderFits(buf: seq<byte>, offset: nat)
  {
    offset + 34 <= |buf| && offset + CENTRAL_HEADER_SIZE + U16(buf, offset + 28) <= |buf|
  }

  /** The header at `offset`: lengths from bytes 28, 30 and 32, the name from byte 46. */
  function ReadHeader(buf: seq<byte>, offset: nat): (h: CentralHeader)
    requires HeaderFits(buf, offset)
    ensures h.offset == offset && |h.name| == h.nameLength
    ensures NextOffset(h) >= offset + CENTRAL_HEADER_SIZE
  {
    var nameLength := U16(buf, offset + 28);
    var nameOffset := offset + CENTRAL_HEADER_SIZE;
    CentralHeader(offset, nameLength, U16(buf, offset + 30), U16(buf, offset + 32),
                  buf[nameOffset..nameOffset + nameLength])
  }

  /** Where the walk stops without an error: past the size, or at a wrong signature. */
  predicate StopsAt(buf: seq<byte>, size: nat, offset: nat)
  {
    offset >= size || (offset + 4 <= |buf| && U32(buf, offset) != CENTRAL_HEADER_SIGNATURE)
  }

  /** A record the walk accepts at `offset`: below the size, with the right signature, fitting the buffer. */
  predicate Accepts(buf: seq<byte>, size: nat, offset: nat)
  {
    offset < size && offset + 4 <= |buf| && U32(buf, offset) == CENTRAL_HEADER_SIGNATURE
      && HeaderFits(buf, offset)
  }

  /** The headers read from `offset` on, as the loop of lines 29-44 reads them. */
  function Walk(buf: seq<byte>, size: nat, offset: nat): Result<seq<CentralHeader>, ZipError>
    decreases size - offset
  {
    if StopsAt(buf, size, offset) then Success([])
    else if !Accepts(buf, size, offset) then Failure(RangeError)
    else
      var h := ReadHeader(buf, offset);
      match Walk(buf, size, NextOffset(h))
      case Failure(e) => Failure(e)
      case Success(rest) => Success([h] + rest)
  }

  function HeaderNames(hs: seq<CentralHeader>): (names: seq<seq<byte>>)
    ensures |names| == |hs| && forall i :: 0 <= i < |hs| ==> names[i] == hs[i].name
  {
    seq(|hs|, i requires 0 <= i < |hs| => hs[i].name)
  }

  function Names(w: Result<seq<CentralHeader>, ZipError>): Result<seq<seq<byte>>, ZipError>
  {
    match w
    case Failure(e) => Failure(e)
    case Success(hs) => Success(HeaderNames(hs))
  }

  function Prepend(names: seq<seq<byte>>, r: Result<seq<seq<byte>>, ZipError>): Result<seq<seq<byte>>, ZipError>
  {
    match r
    case Failure(e) => Failure(e)
    case Success(rest) => Success(names + rest)
  }

  /** One accepted record contributes its name ahead of the rest of the walk's names. */
  lemma NamesStep(buf: seq<byte>, size: nat, offset: nat)
    requires Accepts(buf, size, offset)
    ensures var h := ReadHeader(buf, offset);
      Names(Walk(buf, size, offset)) == Prepend([h.name], Names(Walk(buf, size, NextOffset(h))))
  {
    var h := ReadHeader(buf, offset);
    match Walk(buf, size, NextOffset(h))
    case Failure(e) =>
    case Success(rest) =>
      assert HeaderNames([h] + rest) == [h.name] + HeaderNames(rest);
  }

  lemma PrependTwice(a: seq<seq<byte>>, b: seq<seq<byte>>, r: Result<seq<seq<byte>>, ZipError>)
    ensures Prepend(a, Prepend(b, r)) == Prepend(a + b, r)
  {
    if r.Success? {
      assert a + (b + r.value) == a + b + r.value;
    }
  }

  /** The body of the loop, once, in terms of the walk. */
  lemma WalkStep(buf: seq<byte>, size: nat, offset: nat, names: seq<seq<byte>>)
    requires Accepts(buf, size, offset)
    ensures var h := ReadHeader(buf, offset);
      Prepend(names, Names(Walk(buf, size, offset)))
        == Prepend(names + [h.name], Names(Walk(buf, size, NextOffset(h))))
  {
    var h := ReadHeader(buf, offset);
    NamesStep(buf, size, offset);
    PrependTwice(names, [h.name], Names(Walk(buf, size, NextOffset(h))));
  }

  lemma PrependNothing(r: Result<seq<seq<byte>>, ZipError>)
    ensures Prepend([], r) == r
  {
    if r.Success? {
      assert [] + r.value == r.value;
    }
  }

  /** `listZipContents` from the directory on: the names, in directory order, or a `RangeError`. */
  method ListZipContents(centralBuffer: seq<byte>, centralDirSize: nat)
    returns (r: Result<seq<seq<byte>>, ZipError>)
    ensures r == Names(Walk(centralBuffer, centralDirSize, 0))
  {
    var offset: nat := 0;
    var fileNames: seq<seq<byte>> := [];
    PrependNothing(Names(Walk(centralBuffer, centralDirSize, 0)));
    while offset < centralDirSize
      invariant Names(Walk(centralBuffer, centralDirSize, 0))
        == Prepend(fileNames, Names(Walk(centralBuffer, centralDirSize, offset)))
      decreases centralDirSize - offset
    {
      if offset + 4 > |centralBuffer| {
        return Failure(RangeError);
      }
      var signature := U32(centralBuffer, offset);
      if signature != CENTRAL_HEADER_SIGNATURE {
        break;
      }
      if offset + 34 > |centralBuffer| {
        return Failure(RangeError);
      }
      var fileNameLength := U16(centralBuffer, offset + 28);
      var extraFieldLength := U16(centralBuffer, offset + 30);
      var commentLength := U16(centralBuffer, offset + 32);
      var fileNameOffset := offset + CENTRAL_HEADER_SIZE;
      if fileNameOffset + fileNameLength > |centralBuffer| {
        return Failure(RangeError);
      }
      var fileName := centralBuffer[fileNameOffset..fileNameOffset + fileNameLength];
      assert Accepts(centralBuffer, centralDirSize, offset);
      ghost var h := ReadHeader(centralBuffer, offset);
      assert h.name == fileName;
      WalkStep(centralBuffer, centralDirSize, offset, fileNames);
      fileNames := fileNames + [fileName];
      offset := offset + CENTRAL_HEADER_SIZE + fileNameLength + extraFieldLength + commentLength;
      assert offset == NextOffset(h);
    }
    assert fileNames + [] == fileNames;
    r := Success(fileNames);
  }

  /**
   * What a successful walk from `offset` read: each record accepted where it
   * was read and equal to the header there; the first at `offset` and each next
   * one right after the previous name, extra field and comment; and after the
   * last one the walk stops cleanly.
   */
  lemma {:induction false} WalkShape(buf: seq<byte>, size: nat, offset: nat)
    requires Walk(buf, size, offset).Success?
    ensures var hs := Walk(buf, size, offset).value;
      && (forall i :: 0 <= i < |hs| ==>
            offset <= hs[i].offset && Accepts(buf, size, hs[i].offset)
            && hs[i] == ReadHeader(buf, hs[i].offset))
      && (|hs| > 0 ==> hs[0].offset == offset)
      && (forall i, j :: 0 <= i && j == i + 1 && j < |hs| ==> hs[j].offset == NextOffset(hs[i]))
      && StopsAt(buf, size, if |hs| == 0 then offset else NextOffset(hs[|hs| - 1]))
    decreases size - offset
  {
    if !StopsAt(buf, size, offset) {
      var h := ReadHeader(buf, offset);
      WalkShape(buf, size, NextOffset(h));
      var rest := Walk(buf, size, NextOffset(h)).value;
      var hs := Walk(buf, size, offset).value;
      assert hs == [h] + rest;
      forall i, j | 0 <= i && j == i + 1 && j < |hs| ensures hs[j].offset == NextOffset(hs[i]) {
        if i > 0 {
          assert hs[i] == rest[i - 1] && hs[j] == rest[j - 1];
        }
      }
    }
  }

  /** Record offsets strictly increase, each past the previous fixed header at least. */
  lemma WalkOffsetsIncrease(buf: seq<byte>, size: nat, offset: nat, i: nat)
    requires Walk(buf, size, offset).Success?
    requires i + 1 < |Walk(buf, size, offset).value|
    ensures var hs := Walk(buf, size, offset).value;
      hs[i].offset + CENTRAL_HEADER_SIZE <= hs[i + 1].offset
  {
    WalkShape(buf, size, offset);
    var hs := Walk(buf, size, offset).value;
    assert hs[i + 1].offset == NextOffset(hs[i]);
  }

  /**
   * The names listed once the end record has been read: the directory is
   * requested as the inclusive byte range from its offset to offset + size - 1
   * (lines 15-21), and the walk runs over whatever bytes come back.
   */
  function Listing(fields: EndFields, fetchRange: (nat, int) -> seq<byte>): Result<seq<seq<byte>>, ZipError>
  {
    var last: int := (fields.centralDirOffset as int) + (fields.centralDirSize as int) - 1;
    Names(Walk(fetchRange(fields.centralDirOffset, last), fields.centralDirSize, 0))
  }

  /** Lines 15-46: request the directory the end record describes and walk it. */
  method ListDirectory(fields: EndFields, fetchRange: (nat, int) -> seq<byte>)
    returns (r: Result<seq<seq<byte>>, ZipError>)
    ensures r == Listing(fields, fetchRange)
  {
    var last: int := (fields.centralDirOffset as int) + (fields.centralDirSize as int) - 1;
    var centralBuffer := fetchRange(fields.centralDirOffset, last);
    r := ListZipContents(centralBuffer, fields.centralDirSize);
  }

  /**
   * `listZipContents` from the 22-byte tail on, as written: the end record is
   * read by `ReadEndRecord` (size from byte 10), the directory range is
   * requested, and the walk runs over what comes back.
   */
  method ListArchive(tail: seq<byte>, fetchRange: (nat, int) -> seq<byte>)
    returns (r: Result<seq<seq<byte>>, ZipError>)
    ensures ReadEndRecord(tail).Failure? ==> r == Failure(RangeError)
    ensures ReadEndRecord(tail).Success? ==> r == Listing(ReadEndRecord(tail).value, fetchRange)
  {
    var fields := ReadEndRecord(tail);
    if fields.Failure? {
      return Failure(RangeError);
    }
    r := ListDirectory(fields.value, fetchRange);
  }

  /**
   * The same listing with the end record read where section 4.3.16 of
   * APPNOTE.TXT puts the directory size, at byte 12.
   */
  method ListArchiveAppnote(tail: seq<byte>, fetchRange: (nat, int) -> seq<byte>)
    returns (r: Result<seq<seq<byte>>, ZipError>)
    ensures ReadEndRecordAppnote(tail).Failure? ==> r == Failure(RangeError)
    ensures ReadEndRecordAppnote(tail).Success? ==> r == Listing(ReadEndRecordAppnote(tail).value, fetchRange)
  {
    var fields := ReadEndRecordAppnote(tail);
    if fields.Failure? {
      return Failure(RangeError);
    }
    r := ListDirectory(fields.value, fetchRange);
  }

  /**
   * For a well-formed end record the corrected listing requests exactly the
   * directory the record describes and walks all of it.
   */
  lemma AppnoteListingRequestsDirectory(entries: nat, size: nat, offset: nat, fetchRange: (nat, int) -> seq<byte>)
    requires entries < 0x1_0000 && size < 0x1_0000_0000 && offset < 0x1_0000_0000
    ensures ReadEndRecordAppnote(EndRecord(entries, size, offset)).Success?
    ensures Listing(ReadEndRecordAppnote(EndRecord(entries, size, offset)).value, fetchRange)
      == Names(Walk(fetchRange(offset, offset + size - 1), size, 0))
  {
    AppnoteReadRecoversFields(entries, size, offset);
  }

  /**
   * With the size read at byte 10, an archive whose 65536-byte directory holds
   * three entries asks for three bytes of directory, and a server that
   * returns exactly the requested range makes the first signature read fail.
   */
  lemma WrittenReadFailsListing(fetchRange: (nat, int) -> seq<byte>)
    requires |fetchRange(100, 102)| == 3
    ensures ReadEndRecord(EndRecord(3, 0x1_0000, 100)).Success?
    ensures Listing(ReadEndRecord(EndRecord(3, 0x1_0000, 100)).value, fetchRange) == Failure(RangeError)
  {
    WrittenReadMisreadsSize();
  }

  /** An empty directory size lists nothing, whatever the buffer holds. */
  lemma EmptyDirectory(buf: seq<byte>)
    ensures Walk(buf, 0, 0) == Success([])
  {
  }
}
