/**
 * The `Item` object type (src/graphql/models/Item.ts): its file list with the
 * archive-generated files filtered out, its thumbnail and the lookup that
 * refuses collections. Its `url` and `collectionNames` are the ones shared with
 * collections, `Metadata.DetailsUrl` and `Metadata.CollectionNames`.
 */
module Items {
  import opened Wrappers
  import opened Metadata
  import opened Models

  /** Files the archive generates itself: metadata files, torrents and the tile image. */
  predicate IsArchiveGenerated(file: ItemFileResponse)
  {
    file.source == "metadata" || file.format == "Metadata"
      || file.format == "Archive BitTorrent" || file.format == "Item Tile"
  }

  /** The files uploaded by the user, in their original order. */
  function UserFiles(files: seq<ItemFileResponse>): (kept: seq<ItemFileResponse>)
    ensures |kept| <= |files|
    ensures forall f :: f in kept <==> f in files && !IsArchiveGenerated(f)
    ensures (forall i :: 0 <= i < |files| ==> !IsArchiveGenerated(files[i])) ==> kept == files
  {
    if |files| == 0 then []
    else
      var rest := UserFiles(files[1..]);
      assert forall f :: f in files <==> f == files[0] || f in files[1..];
      if IsArchiveGenerated(files[0]) then rest else [files[0]] + rest
  }

  /** Filtering a concatenation filters each part: the filter keeps the order of the files it keeps. */
  lemma {:induction false} UserFilesAppend(a: seq<ItemFileResponse>, b: seq<ItemFileResponse>)
    ensures UserFiles(a + b) == UserFiles(a) + UserFiles(b)
    decreases |a|
  {
    if |a| == 0 {
      assert a + b == b;
    } else {
      assert (a + b)[1..] == a[1..] + b;
      UserFilesAppend(a[1..], b);
    }
  }

  /** `files(includeMetadata)`: all files when `includeMetadata` is true, the user files otherwise. */
  function Files(item: Item, includeMetadata: Option<bool>): (r: seq<ItemFile>)
    ensures includeMetadata == Some(true) ==>
      r == WrapFiles(item.response.metadata.identifier, item.response.files)
    ensures includeMetadata != Some(true) ==>
      r == WrapFiles(item.response.metadata.identifier, UserFiles(item.response.files))
  {
    var files := item.response.files;
    var kept := if includeMetadata == Some(true) then files else UserFiles(files);
    WrapFiles(item.response.metadata.identifier, kept)
  }

  /**
   * Without `includeMetadata` (absent, null or false), a file of the item is
   * listed exactly when it is not archive-generated, and every listed file
   * belongs to the item and carries the response's own fields.
   */
  lemma FilesWithoutMetadata(item: Item, includeMetadata: Option<bool>, f: ItemFileResponse)
    requires includeMetadata != Some(true)
    ensures ItemFile(item.response.metadata.identifier, f) in Files(item, includeMetadata)
      <==> f in item.response.files && !IsArchiveGenerated(f)
    ensures forall file :: file in Files(item, includeMetadata) ==>
      file.itemIdentifier == item.response.metadata.identifier && file.response in item.response.files
  {
    var r := Files(item, includeMetadata);
    var kept := UserFiles(item.response.files);
    if ItemFile(item.response.metadata.identifier, f) in r {
      var i :| 0 <= i < |r| && r[i] == ItemFile(item.response.metadata.identifier, f);
      assert kept[i] == f;
    }
    if f in item.response.files && !IsArchiveGenerated(f) {
      var i :| 0 <= i < |kept| && kept[i] == f;
      assert r[i] == ItemFile(item.response.metadata.identifier, f);
    }
    forall file | file in r
      ensures file.itemIdentifier == item.response.metadata.identifier && file.response in item.response.files
    {
      var i :| 0 <= i < |r| && r[i] == file;
      assert kept[i] in kept;
    }
  }

  /** With `includeMetadata` true, every file is listed, in order, with its getters returning the response fields. */
  lemma FilesWithMetadata(item: Item, i: nat)
    requires i < |item.response.files|
    ensures var r := Files(item, Some(true));
      && |r| == |item.response.files|
      && r[i].Filename() == item.response.files[i].name
      && r[i].Format() == item.response.files[i].format
      && r[i].Md5() == item.response.files[i].md5
      && r[i].Source() == item.response.files[i].source
  {
  }

  /** The index of the first tile image. */
  function FirstTile(files: seq<ItemFileResponse>): (r: Option<nat>)
    ensures r.None? <==> forall i :: 0 <= i < |files| ==> files[i].format != "Item Tile"
    ensures r.Some? ==>
      && r.value < |files|
      && files[r.value].format == "Item Tile"
      && forall i :: 0 <= i < r.value ==> files[i].format != "Item Tile"
  {
    if |files| == 0 then None
    else if files[0].format == "Item Tile" then Some(0)
    else match FirstTile(files[1..])
      case None => None
      case Some(k) => Some(k + 1)
  }

  /** `thumbnail`: the first file whose format is "Item Tile", or null. */
  function Thumbnail(item: Item): (r: Option<ItemFile>)
    ensures r.None? <==> forall f :: f in item.response.files ==> f.format != "Item Tile"
    ensures r.Some? ==> exists k ::
      && 0 <= k < |item.response.files|
      && r.value == ItemFile(item.response.metadata.identifier, item.response.files[k])
      && item.response.files[k].format == "Item Tile"
      && forall i :: 0 <= i < k ==> item.response.files[i].format != "Item Tile"
  {
    match FirstTile(item.response.files)
    case None => None
    case Some(k) => Some(ItemFile(item.response.metadata.identifier, item.response.files[k]))
  }

  /** The thumbnail is never among the files listed without `includeMetadata`. */
  lemma ThumbnailIsGenerated(item: Item)
    requires Thumbnail(item).Some?
    ensures Thumbnail(item).value !in Files(item, None)
  {
    var t := Thumbnail(item).value;
    FilesWithoutMetadata(item, None, t.response);
  }

  /** `Item.item`: the item, a failure to load, or "Item is not an item" for a collection. */
  function ItemOf(load: Loader, identifier: string): (r: Result<Item, ModelError>)
    ensures load(identifier).None? ==> r == Failure(FetchFailed)
    ensures load(identifier).Some? && IsCollection(load(identifier).value) ==> r == Failure(NotAnItem)
    ensures load(identifier).Some? && !IsCollection(load(identifier).value) ==>
      r == Success(Item(load(identifier).value))
  {
    match ItemLikeOf(load, identifier)
    case Failure(e) => Failure(e)
    case Success(AnItem(item)) => Success(item)
    case Success(ACollection(_)) => Failure(NotAnItem)
  }
}
