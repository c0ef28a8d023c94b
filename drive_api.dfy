/**
 * The remote side of the mirror: the entries a folder listing reports, the listing request
 * the downloader sends, and the page loop that concatenates listing responses.
 * The remote service itself is a pair of functions: listing responses are a function of the
 * request alone, and media downloads a function of the file id.
 */
module DriveApi {
  import opened Base

  const FolderMimeType: string := "application/vnd.google-apps.folder"
  const ListFields: string := "nextPageToken, files(id, name, mimeType, md5Checksum, parents)"
  const PageSize: nat := 1000
  /** The corpora value under which the shared-drive id is sent. */
  const DriveCorpora: string := "drive"

  /** One child reported by a listing; `md5Checksum` is absent for some remote files. */
  datatype Entry = Entry(id: string, name: string, mimeType: string, md5Checksum: Option<string>)

  /** Folders are recognised by their MIME type alone; every other entry is a file. */
  predicate IsFolder(e: Entry)
    ensures IsFolder(e) <==> e.mimeType == "application/vnd.google-apps.folder"
  {
    e.mimeType == FolderMimeType
  }

  /** The parameters of one `files().list` call; `pageToken` is the service's continuation parameter. */
  datatype Request = Request(
    q: string,
    fields: string,
    pageSize: nat,
    supportsAllDrives: bool,
    includeItemsFromAllDrives: bool,
    corpora: string,
    driveId: Option<string>,
    pageToken: Option<string>)

  /** A listing response (with optional `files` and `nextPageToken` keys), or an API failure. */
  datatype Response = Page(files: Option<seq<Entry>>, nextPageToken: Option<string>) | HttpError(reason: string)

  /** What streaming a file's media delivers: all of it, or the bytes that arrived before an interruption. */
  datatype Media = Delivered(content: Bytes) | Interrupted(partial: Bytes, reason: string)

  /** The remote service: listing responses as a function of the request, media as a function of the file id. */
  datatype Drive = Drive(list: Request -> Response, media: string -> Media)

  /** The search expression for the non-trashed children of a folder. */
  function Query(folderId: string): (q: string)
    ensures |q| == |folderId| + 33
    ensures q[..1] == "'" && q[1..1 + |folderId|] == folderId
    ensures q[1 + |folderId|..] == "' in parents and trashed = false"
  {
    "'" + folderId + "' in parents and trashed = false"
  }

  /** Different folders are never confused: the query names exactly one folder id. */
  lemma QueryNamesOneFolder(a: string, b: string)
    ensures Query(a) == Query(b) <==> a == b
  {
    if Query(a) == Query(b) {
      assert |a| == |b|;
    }
  }

  /**
   * The request sent for every page of a folder's listing. The shared-drive id is only sent
   * under the "drive" corpora, and no continuation token is ever sent.
   */
  function RequestFor(folderId: string, corpora: string, driveId: Option<string>): (r: Request)
    ensures r.q == Query(folderId) && r.corpora == corpora
    ensures r.driveId == (if corpora == DriveCorpora then driveId else None)
    ensures r.pageToken == None
  {
    Request(Query(folderId), ListFields, PageSize, true, true, corpora,
            if corpora == DriveCorpora then driveId else None, None)
  }

  /** A missing `files` key reads as no files. */
  function FilesOf(files: Option<seq<Entry>>): (r: seq<Entry>)
    ensures files == None ==> r == []
    ensures files.Some? ==> r == files.value
  {
    match files
    case None => []
    case Some(fs) => fs
  }

  /** A missing or empty `nextPageToken` ends the page loop (both are falsy). */
  predicate LastPage(token: Option<string>)
    ensures LastPage(token) <==> (token.Some? ==> |token.value| == 0)
  {
    token == None || token == Some("")
  }

  /** `n` copies of one page, one after the other. */
  function Repeat(page: seq<Entry>, n: nat): (r: seq<Entry>)
    ensures |r| == n * |page|
    ensures forall e :: e in r ==> e in page
  {
    if n == 0 then [] else Repeat(page, n - 1) + page
  }

  /**
   * Outcome of listing one folder: the concatenated entries, the failure of a request, or,
   * when the request budget ran out with the loop still going, the entries gathered so far.
   */
  datatype Listing = Listed(entries: seq<Entry>) | ListError(reason: string) | StillPaging(partial: seq<Entry>)

  /**
   * What the page loop yields within `budget` requests when the service answers its (constant)
   * request with `response`.
   */
  function ListSpec(response: Response, budget: nat): (r: Listing)
    ensures r.Listed? <==> budget > 0 && response.Page? && LastPage(response.nextPageToken)
    ensures r.Listed? ==> r.entries == FilesOf(response.files)
    ensures r.ListError? <==> budget > 0 && response.HttpError?
    ensures r.ListError? ==> r.reason == response.reason
    ensures r.StillPaging? && response.Page? ==> r.partial == Repeat(FilesOf(response.files), budget)
  {
    if budget == 0 then StillPaging([])
    else match response
      case HttpError(e) => ListError(e)
      case Page(files, token) =>
        if LastPage(token) then Listed(FilesOf(files))
        else StillPaging(Repeat(FilesOf(files), budget))
  }

  /**
   * The page loop. The continuation token of each response is read but never put into the
   * next request, so every iteration sends the same request. `maxRequests` is an external
   * bound on the number of requests, standing for a caller that stops waiting.
   */
  method ListFolderContents(drive: Drive, folderId: string, corpora: string, driveId: Option<string>,
                            maxRequests: nat)
    returns (r: Listing)
    ensures r == ListSpec(drive.list(RequestFor(folderId, corpora, driveId)), maxRequests)
  {
    ghost var first := drive.list(RequestFor(folderId, corpora, driveId));
    var result: seq<Entry> := [];
    var pageToken: Option<string> := None;
    var requests: nat := 0;
    while true
      invariant requests <= maxRequests
      invariant requests == 0 ==> result == []
      invariant requests > 0 ==> first.Page? && !LastPage(first.nextPageToken)
      invariant requests > 0 ==> result == Repeat(FilesOf(first.files), requests)
      decreases maxRequests - requests
    {
      if requests == maxRequests {
        return StillPaging(result);
      }
      var response := drive.list(RequestFor(folderId, corpora, driveId));
      requests := requests + 1;
      if response.HttpError? {
        return ListError(response.reason);
      }
      result := result + FilesOf(response.files);
      pageToken := response.nextPageToken;
      if LastPage(pageToken) {
        return Listed(result);
      }
    }
  }

  /** A folder whose listing fits one page is listed in response order with a single request. */
  lemma OnePageListing(response: Response, budget: nat)
    requires response.Page? && LastPage(response.nextPageToken) && budget >= 1
    ensures ListSpec(response, budget) == Listed(FilesOf(response.files))
  {
  }

  /**
   * A first response that carries a continuation token never ends the loop: whatever the
   * budget, the loop is still paging, having gathered page one once per request.
   */
  lemma {:induction false} TokenNeverEndsListing(response: Response, budget: nat)
    requires response.Page? && !LastPage(response.nextPageToken)
    ensures ListSpec(response, budget).StillPaging?
    ensures |ListSpec(response, budget).partial| == budget * |FilesOf(response.files)|
    ensures budget >= 1 ==> ListSpec(response, budget).partial[..|FilesOf(response.files)|] == FilesOf(response.files)
  {
    if budget >= 1 {
      var page := FilesOf(response.files);
      RepeatStartsWithPage(page, budget);
    }
  }

  lemma {:induction false} RepeatStartsWithPage(page: seq<Entry>, n: nat)
    requires n >= 1
    ensures Repeat(page, n)[..|page|] == page
  {
    if n > 1 {
      RepeatStartsWithPage(page, n - 1);
      assert Repeat(page, n) == Repeat(page, n - 1) + page;
    }
  }
}
