/**
 * The object types of the schema (src/graphql/models), as the values their
 * constructors capture. Every one of them only reads what it was built from.
 */
module Models {
  import opened Wrappers
  import opened Metadata
  import ZipContent

  /** `new Item(response)`. */
  datatype Item = Item(response: ItemResponse)

  /** `new Collection(response)`. */
  datatype Collection = Collection(response: ItemResponse)

  /** `new ItemFile(itemIdentifier, response)`, with its pass-through getters. */
  datatype ItemFile = ItemFile(itemIdentifier: string, response: ItemFileResponse)
  {
    function Filename(): string { response.name }
    function Format(): string { response.format }
    function Md5(): string { response.md5 }
    function Source(): string { response.source }
  }

  /** The ItemFile of each response file, in order, owned by `identifier`. */
  function WrapFiles(identifier: string, files: seq<ItemFileResponse>): (r: seq<ItemFile>)
    ensures |r| == |files|
    ensures forall i :: 0 <= i < |files| ==> r[i] == ItemFile(identifier, files[i])
  {
    seq(|files|, i requires 0 <= i < |files| => ItemFile(identifier, files[i]))
  }

  /** `new ZipContent(itemIdentifier, archiveFileName, filename)`; the name stays undecoded bytes. */
  datatype ZipEntry = ZipEntry(itemIdentifier: string, archiveFileName: string, filename: seq<ZipContent.byte>)

  /** The `ItemLike` interface: an item or a collection. */
  datatype ItemLike = AnItem(item: Item) | ACollection(collection: Collection)

  /** The errors the models raise, with their messages. */
  datatype ModelError = FetchFailed | NotAnItem | NotACollection
  {
    function Message(): string
    {
      match this
      case FetchFailed => "Failed to fetch item"
      case NotAnItem => "Item is not an item"
      case NotACollection => "Item is not a collection"
    }
  }

  /**
   * A metadata lookup: the response for an identifier, or `None` when the
   * request fails, the one error `loadItem` raises ("Failed to fetch item").
   */
  type Loader = string -> Option<ItemResponse>

  /** JavaScript truthiness of `is_collection`: only a present `true`. */
  predicate IsCollection(response: ItemResponse)
  {
    response.isCollection == Some(true)
  }

  /** `itemLike`: a collection when the response says so, an item otherwise. */
  function ItemLikeOf(load: Loader, identifier: string): (r: Result<ItemLike, ModelError>)
    ensures load(identifier).None? ==> r == Failure(FetchFailed)
    ensures load(identifier).Some? ==> r.Success?
    ensures r.Success? && r.value.ACollection? <==>
      load(identifier).Some? && IsCollection(load(identifier).value)
    ensures r.Success? && r.value.AnItem? ==> r.value.item == Item(load(identifier).value)
    ensures r.Success? && r.value.ACollection? ==> r.value.collection == Collection(load(identifier).value)
  {
    match load(identifier)
    case None => Failure(FetchFailed)
    case Some(response) =>
      if IsCollection(response) then Success(ACollection(Collection(response)))
      else Success(AnItem(Item(response)))
  }
}
