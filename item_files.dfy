/**
 * The `ItemFile` object type (src/graphql/models/ItemFile.ts): its download
 * URLs, the `.zip` test and the archive listing it wraps. The listing itself
 * needs the network; it is the parameter `lister`, given the CORS URL.
 */
module ItemFiles {
  import opened Wrappers
  import opened Models
  import ZipContent

  const DOWNLOAD_PREFIX: string := "https://archive.org/download/"
  const CORS_PREFIX: string := "https://archive.org/cors/"
  const ZIP_SUFFIX: string := ".zip"

  /** `toLowerCase` on one character, for the ASCII letters. */
  function LowerChar(c: char): (l: char)
    ensures 'A' <= c <= 'Z' ==> l as int == c as int + 32
    ensures !('A' <= c <= 'Z') ==> l == c
  {
    if 'A' <= c <= 'Z' then (c as int + 32) as char else c
  }

  function ToLower(s: string): (r: string)
    ensures |r| == |s| && forall i :: 0 <= i < |s| ==> r[i] == LowerChar(s[i])
  {
    seq(|s|, i requires 0 <= i < |s| => LowerChar(s[i]))
  }

  predicate EndsWith(s: string, suffix: string)
  {
    |suffix| <= |s| && s[|s| - |suffix|..] == suffix
  }

  /** `name.toLowerCase().endsWith(".zip")`. */
  predicate IsZipName(name: string)
  {
    EndsWith(ToLower(name), ZIP_SUFFIX)
  }

  /** The `.zip` test character by character: a dot, then `z`, `i` and `p` in either case, at the end. */
  lemma IsZipNameChars(name: string)
    ensures IsZipName(name) <==>
      && |name| >= 4
      && name[|name| - 4] == '.'
      && name[|name| - 3] in {'z', 'Z'}
      && name[|name| - 2] in {'i', 'I'}
      && name[|name| - 1] in {'p', 'P'}
  {
    var n := |name|;
    if n >= 4 {
      var tail := ToLower(name)[n - 4..];
      assert tail == [LowerChar(name[n - 4]), LowerChar(name[n - 3]), LowerChar(name[n - 2]), LowerChar(name[n - 1])];
    }
  }

  /** `downloadUrl`. */
  function DownloadUrl(file: ItemFile): (url: string)
    ensures |url| == |DOWNLOAD_PREFIX| + |file.itemIdentifier| + 1 + |file.response.name|
    ensures url[..|DOWNLOAD_PREFIX|] == DOWNLOAD_PREFIX
    ensures url[|DOWNLOAD_PREFIX|..] == file.itemIdentifier + "/" + file.response.name
  {
    DOWNLOAD_PREFIX + file.itemIdentifier + "/" + file.response.name
  }

  /** `corsUrl`. */
  function CorsUrl(file: ItemFile): (url: string)
    ensures |url| == |CORS_PREFIX| + |file.itemIdentifier| + 1 + |file.response.name|
    ensures url[..|CORS_PREFIX|] == CORS_PREFIX
    ensures url[|CORS_PREFIX|..] == file.itemIdentifier + "/" + file.response.name
  {
    CORS_PREFIX + file.itemIdentifier + "/" + file.response.name
  }

  predicate NoSlash(s: string)
  {
    forall i :: 0 <= i < |s| ==> s[i] != '/'
  }

  /** Splitting `id + "/" + name` at its first slash gives back `id` when `id` has no slash. */
  lemma SplitAtFirstSlash(a: string, b: string, c: string, d: string)
    requires NoSlash(a) && NoSlash(c)
    requires a + "/" + b == c + "/" + d
    ensures a == c && b == d
  {
    var s := a + "/" + b;
    assert s[|a|] == '/' && s[|c|] == '/';
    assert forall i :: 0 <= i < |c| ==> s[i] == c[i];
    assert forall i :: 0 <= i < |a| ==> s[i] == a[i];
    assert a == s[..|a|] == c;
    assert b == s[|a| + 1..] == d;
  }

  /**
   * For identifiers without a slash (archive.org identifiers have none), the
   * download URL determines the owning item and the file name.
   */
  lemma DownloadUrlInjective(f: ItemFile, g: ItemFile)
    requires NoSlash(f.itemIdentifier) && NoSlash(g.itemIdentifier)
    requires DownloadUrl(f) == DownloadUrl(g)
    ensures f.itemIdentifier == g.itemIdentifier && f.response.name == g.response.name
  {
    SplitAtFirstSlash(f.itemIdentifier, f.response.name, g.itemIdentifier, g.response.name);
  }

  /** The same holds for the CORS URL, and the two URLs share the path after their prefix. */
  lemma CorsUrlInjective(f: ItemFile, g: ItemFile)
    requires NoSlash(f.itemIdentifier) && NoSlash(g.itemIdentifier)
    requires CorsUrl(f) == CorsUrl(g)
    ensures f.itemIdentifier == g.itemIdentifier && f.response.name == g.response.name
    ensures DownloadUrl(f)[|DOWNLOAD_PREFIX|..] == CorsUrl(f)[|CORS_PREFIX|..]
  {
    SplitAtFirstSlash(f.itemIdentifier, f.response.name, g.itemIdentifier, g.response.name);
  }

  /** A listing of an archive's file names, given the URL to read it from. */
  type Lister = string -> Result<seq<seq<ZipContent.byte>>, ZipContent.ZipError>

  /**
   * `zipContent`: null unless the name ends in `.zip`; otherwise one entry per
   * listed name, in order, each naming the item and the archive, or the
   * listing's error.
   */
  function ZipContentOf(file: ItemFile, lister: Lister): (r: Option<Result<seq<ZipEntry>, ZipContent.ZipError>>)
    ensures r.None? <==> !IsZipName(file.response.name)
    ensures r.Some? && lister(CorsUrl(file)).Failure? ==> r.value == Failure(lister(CorsUrl(file)).error)
    ensures r.Some? && lister(CorsUrl(file)).Success? ==>
      && r.value.Success?
      && |r.value.value| == |lister(CorsUrl(file)).value|
      && forall i :: 0 <= i < |r.value.value| ==>
        r.value.value[i] == ZipEntry(file.itemIdentifier, file.response.name, lister(CorsUrl(file)).value[i])
  {
    if !IsZipName(file.response.name) then None
    else
      match lister(CorsUrl(file))
      case Failure(e) => Some(Failure(e))
      case Success(names) =>
        Some(Success(seq(|names|, i requires 0 <= i < |names| =>
          ZipEntry(file.itemIdentifier, file.response.name, names[i]))))
  }
}
