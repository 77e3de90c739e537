/**
 * The `Collection` object type (src/graphql/models/Collection.ts): its
 * unfiltered file list, the search it hands `members` to, and the lookup that
 * refuses plain items. Its `url` and `collectionNames` compute what the
 * item's do, through `Metadata.DetailsUrl` and `Metadata.CollectionNames`.
 */
module Collections {
  import opened Wrappers
  import opened Metadata
  import opened Models
  import opened SearchApi
  import opened SearchConnection
  import Items

  /** `url`: the collection's page, the details prefix followed by its identifier. */
  function Url(c: Collection): (url: string)
    ensures |url| == |DETAILS_PREFIX| + |c.response.metadata.identifier|
    ensures url[..|DETAILS_PREFIX|] == DETAILS_PREFIX
    ensures url[|DETAILS_PREFIX|..] == c.response.metadata.identifier
  {
    DetailsUrl(c.response.metadata.identifier)
  }

  /** `collectionNames`: no names when absent, a single name as a singleton, a list as given. */
  function CollectionNamesOf(c: Collection): (names: seq<string>)
    ensures c.response.metadata.collection.Absent? ==> names == []
    ensures c.response.metadata.collection.Single? ==> names == [c.response.metadata.collection.name]
    ensures c.response.metadata.collection.Many? ==> names == c.response.metadata.collection.names
  {
    CollectionNames(c.response.metadata)
  }

  /** `files`: every response file, in order, metadata and thumbnail included. */
  function Files(c: Collection): (r: seq<ItemFile>)
    ensures |r| == |c.response.files|
    ensures forall i :: 0 <= i < |r| ==> r[i] == ItemFile(c.response.metadata.identifier, c.response.files[i])
  {
    WrapFiles(c.response.metadata.identifier, c.response.files)
  }

  /** A collection lists the files its response would list as an item with `includeMetadata` set, and never fewer. */
  lemma FilesAsItem(c: Collection, includeMetadata: Option<bool>)
    ensures Files(c) == Items.Files(Item(c.response), Some(true))
    ensures forall f :: f in Items.Files(Item(c.response), includeMetadata) ==> f in Files(c)
  {
    var files := c.response.files;
    forall f | f in Items.Files(Item(c.response), includeMetadata)
      ensures f in Files(c)
    {
      if includeMetadata != Some(true) {
        Items.FilesWithoutMetadata(Item(c.response), includeMetadata, f.response);
      }
      var i :| 0 <= i < |files| && files[i] == f.response;
      assert Files(c)[i] == f;
    }
  }

  const DEFAULT_MEMBERS_FIRST: int := 10

  /** `members(first, after)`: a search with no query term, restricted to this collection. */
  function Members(c: Collection, first: Option<int>, after: Option<string>): (r: SearchRequest)
    ensures r.query == None
    ensures r.args == SearchArgs(Some(c.response.metadata.identifier))
    ensures r.first == Some(if first.Some? then first.value else DEFAULT_MEMBERS_FIRST)
    ensures r.after == after
  {
    SearchRequest(None, Some(first.GetOr(DEFAULT_MEMBERS_FIRST)), SearchArgs(Some(c.response.metadata.identifier)), after)
  }

  /** The `q` of every page the members search asks for is the collection restriction alone. */
  lemma MembersQuery(c: Collection, first: Option<int>, after: Option<string>)
    ensures var r := Members(c, first, after);
      var id := c.response.metadata.identifier;
      QueryText(r.query, r.args) == if id == "" then "" else "(collection:" + id + ")"
  {
  }

  /** `Collection.collection`: the collection, a failure to load, or "Item is not a collection" for an item. */
  function CollectionOf(load: Loader, identifier: string): (r: Result<Collection, ModelError>)
    ensures load(identifier).None? ==> r == Failure(FetchFailed)
    ensures load(identifier).Some? && !IsCollection(load(identifier).value) ==> r == Failure(NotACollection)
    ensures load(identifier).Some? && IsCollection(load(identifier).value) ==>
      r == Success(Collection(load(identifier).value))
  {
    match ItemLikeOf(load, identifier)
    case Failure(e) => Failure(e)
    case Success(ACollection(c)) => Success(c)
    case Success(AnItem(_)) => Failure(NotACollection)
  }

  /** Every successful lookup is an item or a collection, never both. */
  lemma ItemOrCollection(load: Loader, identifier: string)
    requires load(identifier).Some?
    ensures Items.ItemOf(load, identifier).Success? != CollectionOf(load, identifier).Success?
  {
  }
}
