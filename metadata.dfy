/**
 * The records of the item metadata service (src/graphql/network/metadata.ts),
 * reduced to the fields the models read. Loading them over HTTP is not part of
 * this model.
 */
module Metadata {
  import opened Wrappers

  /** One entry of `files`; `None` is an absent optional field. */
  datatype ItemFileResponse = ItemFileResponse(
    name: string, source: string, format: string, md5: string,
    mtime: Option<string>, size: Option<string>, crc32: Option<string>, sha1: Option<string>)

  /** `collection?: string | string[]`. */
  datatype CollectionField = Absent | Single(name: string) | Many(names: seq<string>)

  datatype ItemResponseMetadata = ItemResponseMetadata(
    identifier: string, title: string, description: string, collection: CollectionField)

  /** `is_collection?: boolean`; `None` is an absent field. */
  datatype ItemResponse = ItemResponse(
    files: seq<ItemFileResponse>, metadata: ItemResponseMetadata, isCollection: Option<bool>)

  const DETAILS_PREFIX: string := "https://archive.org/details/"

  /** The normalised `collection` field: no names, one name, or the list as given. */
  function CollectionNames(metadata: ItemResponseMetadata): (names: seq<string>)
    ensures metadata.collection.Absent? ==> names == []
    ensures metadata.collection.Single? ==> names == [metadata.collection.name]
    ensures metadata.collection.Many? ==> names == metadata.collection.names
  {
    match metadata.collection
    case Absent => []
    case Single(name) => [name]
    case Many(names) => names
  }

  /** The page of an item or a collection on archive.org. */
  function DetailsUrl(identifier: string): (url: string)
    ensures |url| == |DETAILS_PREFIX| + |identifier|
    ensures url[..|DETAILS_PREFIX|] == DETAILS_PREFIX
    ensures url[|DETAILS_PREFIX|..] == identifier
  {
    DETAILS_PREFIX + identifier
  }

  /** Distinct identifiers have distinct pages. */
  lemma DetailsUrlInjective(a: string, b: string)
    requires DetailsUrl(a) == DetailsUrl(b)
    ensures a == b
  {
    assert a == DetailsUrl(a)[|DETAILS_PREFIX|..];
  }

  /**
   * The normalisation forgets only two distinctions: a single name against a
   * one-element list, and an absent field against an empty list.
   */
  lemma CollectionNamesCollide(a: ItemResponseMetadata, b: ItemResponseMetadata)
    requires a.collection != b.collection
    requires CollectionNames(a) == CollectionNames(b)
    ensures (a.collection.Single? && b.collection == Many([a.collection.name]))
         || (b.collection.Single? && a.collection == Many([b.collection.name]))
         || (a.collection.Absent? && b.collection == Many([]))
         || (b.collection.Absent? && a.collection == Many([]))
  {
  }
}
