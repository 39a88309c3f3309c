/** The Drive folder helpers behind automatic thumbnails: extracting a
    folder id from a link, and the guard and result shaping around the
    folder listing request. The request itself is an input. */
module DriveApi {
  import opened Wrappers
  import opened Patterns

  const FoldersMarker: Marker := Lit("/folders/")

  /** `extractFolderId`: the id after the leftmost `/folders/` that is
      followed by an id character; null for an empty link or no match. */
  function ExtractFolderId(url: string): (r: Option<string>)
    ensures url == "" ==> r == None
    ensures r.None? <==> forall i :: !MatchesAt(url, FoldersMarker, i)
    ensures r.Some? ==> r.value != [] && AllIdChars(r.value)
  {
    if url == "" then None else Capture(url, FoldersMarker)
  }

  /** The id is the maximal run of id characters after the leftmost
      matching `/folders/`. */
  lemma FolderIdIsLeftmostRun(url: string, i: nat)
    requires MatchesAt(url, FoldersMarker, i)
    requires forall j :: 0 <= j < i ==> !MatchesAt(url, FoldersMarker, j)
    ensures ExtractFolderId(url) == Some(IdRun(url[i + |FoldersMarker|..]))
  {
    CaptureIsLeftmostRun(url, FoldersMarker, i);
  }

  /** What the Drive listing request produced: a failure of any kind (the
      request threw or timed out, answered non-ok, or its body did not parse)
      or the ids of the files it listed, first by name. */
  datatype Listing = ListingFailed | Files(ids: seq<string>)

  /** The result of `getFirstImageFromFolder`, and whether it sent the
      listing request. */
  datatype FolderImage = FolderImage(thumbnail: Option<string>, requested: bool)

  /** `getFirstImageFromFolder`, with the API key and the listing as inputs. */
  function FirstImageFromFolder(folderUrl: string, apiKey: string, listing: Listing): (r: FolderImage)
    ensures !r.requested <==> ExtractFolderId(folderUrl).None? || apiKey == ""
    ensures !r.requested ==> r.thumbnail == None
    ensures r.thumbnail.Some? <==> r.requested && listing.Files? && listing.ids != []
    ensures r.thumbnail.Some? ==> r.thumbnail.value == ThumbnailUrl(listing.ids[0])
  {
    if ExtractFolderId(folderUrl).None? || apiKey == "" then FolderImage(None, false)
    else
      match listing
      case ListingFailed => FolderImage(None, true)
      case Files(ids) =>
        if ids == [] then FolderImage(None, true) else FolderImage(Some(ThumbnailUrl(ids[0])), true)
  }

  /** Without a folder id or an API key the listing is never consulted. */
  lemma NoRequestWithoutFolderOrKey(folderUrl: string, apiKey: string, a: Listing, b: Listing)
    requires ExtractFolderId(folderUrl).None? || apiKey == ""
    ensures FirstImageFromFolder(folderUrl, apiKey, a) == FirstImageFromFolder(folderUrl, apiKey, b)
  {
  }
}
