# Incremental Google Drive folder mirror — a Dafny model

The downloader copies a Google Drive folder tree into a local directory and skips files that are
already up to date. It keeps a stack of (folder id, local path) work items, starting from the
root folder and the base directory. In a loop it:

1. pops the top work item;
2. lists the folder's non-trashed children through the paged `files().list` call;
3. pushes every child folder, with the path extended by the folder's name;
4. checks every child file against its target `<path>/<name>`: when the target exists and its
   chunked local MD5 equals the remote `md5Checksum`, the file is skipped; otherwise it is
   downloaded and recorded in a metadata log keyed by the target path.

When the stack is empty, the log is written to `metadata/<base name>_downloaded_metadata.json`.

The model has seven modules:

- `Base`: bytes, paths and the local filesystem, which maps each path to its content.
- `DriveApi`: entries, the listing request and the page loop `ListFolderContents`. The remote
  service is a value: listing responses are a function of the request, and media downloads a
  function of the file id.
- `Fingerprint`: the chunked MD5 loop. The digest itself is an opaque function parameter.
- `Walk`: the reference walk `Tree`. It is the trace of events the stack traversal produces:
  popped folders, listing failures and evaluated files.
- `Sync`: the skip-or-download rule and the metadata log. The state of a run is a fold (`Apply`)
  of that rule over the trace.
- `Coverage`: exactly-once coverage of every reachable folder and file.
- `Downloader`: the imperative `RecursiveDownload` (stack loop, per-child loop, report path).
  It is proved to end in exactly the state and outcome of `Apply` over `Tree`. The idempotence
  and report theorems are stated about that reference run.

Acyclicity of the folder graph is a precondition (`Walk.Acyclic`). It is expressed by a ghost
`rank` that strictly decreases from each listed folder to its child folders. Without it the
source's loop need not end. The rank covers every folder the service lists, not only those
reachable from the root; Drive does not allow folder cycles, so this excludes no real drive.

The listing loop reads each response's `nextPageToken` but never sends it back. Every iteration
therefore repeats the first request. A folder whose first page carries a token is listed forever,
accumulating page one again and again. The model keeps this behaviour as written: a request
budget `maxRequests` stands in for the caller giving up, and such a listing ends as
`StillPaging`, which stops the run.

## Model

| member | source | states |
|---|---|---|
| DriveApi.IsFolder | scripts/gdrive_downloader.py:93 | the definition of line 93's test: an entry is a folder exactly when its MIME type is the folder type, and every other entry takes the file branch; stated by Walk.ChildStep, Coverage.PushedShape and Coverage.FileEventsShape |
| DriveApi.Query | scripts/gdrive_downloader.py:53 | the search string is the folder id in single quotes followed by ` in parents and trashed = false` |
| DriveApi.QueryNamesOneFolder | scripts/gdrive_downloader.py:53 | the search query of two folder ids is equal exactly when the ids are equal |
| DriveApi.RequestFor | scripts/gdrive_downloader.py:55-63 | the definition of the keyword arguments of lines 55-63: the folder's query, the corpora, the drive id only for corpora "drive", and never a page token; stated by DriveApi.ListFolderContents, whose loop sends exactly this request every time |
| DriveApi.Repeat | scripts/gdrive_downloader.py:65 | n repetitions of a page hold n times its entries and nothing else |
| DriveApi.FilesOf | scripts/gdrive_downloader.py:65 | the definition of `response.get("files", [])`: no entries without a `files` key, otherwise that list; stated by DriveApi.ListSpec and DriveApi.OnePageListing |
| DriveApi.LastPage | scripts/gdrive_downloader.py:66-67 | the loop stops exactly when the token is absent or the empty string (both falsy) |
| DriveApi.ListSpec | scripts/gdrive_downloader.py:54-68 | the closed form of the page loop: within a positive budget, a failed call gives its error, a page without a (non-empty) token gives its files, and a page with one gives page one repeated once per request; a zero budget gives nothing yet |
| DriveApi.ListFolderContents | scripts/gdrive_downloader.py:50-69 | the page loop returns the closed form `ListSpec` of the (constant) first response: its files if it carries no token or an empty one, the error if the call fails, and otherwise the first page repeated once per request when the budget runs out |
| DriveApi.OnePageListing | scripts/gdrive_downloader.py:65-68 | a response without a continuation token yields exactly its files, in order |
| DriveApi.TokenNeverEndsListing | scripts/gdrive_downloader.py:54-68 | a first response with a non-empty token never ends the loop: for every budget the listing is still paging, holds budget × page-size entries, and starts with page one |
| Fingerprint.Chunks | scripts/gdrive_downloader.py:34 | the chunks successive `read(n)` calls return before the first empty read; its properties are stated by ChunksCoverData, ChunksSized and ReadThenChunks |
| Fingerprint.ChunksCoverData | scripts/gdrive_downloader.py:34-35 | the chunks read, concatenated in order, are the whole file |
| Fingerprint.ChunksSized | scripts/gdrive_downloader.py:34 | every chunk is non-empty and at most the read size; all but the last are exactly the read size |
| Fingerprint.Read | scripts/gdrive_downloader.py:34 | one read stays within the file, is at most the requested size, and is empty exactly at end of file |
| Fingerprint.ReadThenChunks | scripts/gdrive_downloader.py:34 | the chunks from an offset are the chunk read there followed by the chunks after it |
| Fingerprint.FeedChunk | scripts/gdrive_downloader.py:34-35 | feeding the chunk read at an offset moves it from the chunks still to come to the chunks fed |
| Fingerprint.HashChunks | scripts/gdrive_downloader.py:32-36 | the read-until-empty loop feeds the hasher exactly `Chunks(data)`, in order, and returns the digest of the whole file |
| Fingerprint.Md5Of | scripts/gdrive_downloader.py:31-36 | the fingerprint of an existing local file, read in 8 MiB (8 << 20) chunks, is the digest of its content |
| Walk.Items | scripts/gdrive_downloader.py:81 | the stack holds one work item per frame |
| Walk.ItemsAppend | scripts/gdrive_downloader.py:95 | the work items of two stacked frame sequences are the concatenation of their work items |
| Walk.ItemsSnoc | scripts/gdrive_downloader.py:85 | pushing or popping one frame pushes or pops its work item |
| Walk.Pushed | scripts/gdrive_downloader.py:93-95 | every frame pushed for a folder's children is one of its listed child folders |
| Walk.ListingOf | scripts/gdrive_downloader.py:86 | how one folder's listing comes out: the page loop `ListSpec` on the response to the request `RequestFor` builds for that folder id, under the run's corpora, drive id and request budget |
| Walk.FileEvents | scripts/gdrive_downloader.py:88-97 | the file children among the first n children, in listing order, each with target `path/name` and route `route + [i]`; stated by FileEventsShape, FileEventIsChild and FileEventsHave |
| Walk.Tree | scripts/gdrive_downloader.py:84-95 | the events of walking one work item to completion: its pop, then its listing failure, or its files in listing order followed by the walk of its child folders (last-listed first, each to completion); stated by TreeOfListed and TreeOfUnlisted |
| Walk.Forest | scripts/gdrive_downloader.py:84-85 | the events of walking a stack: the top (last-pushed) frame first, down to the bottom; stated by ForestPop and ForestAppend |
| Walk.ChildStep | scripts/gdrive_downloader.py:88-97 | handling child i: a folder pushes one frame (path extended by its name) and adds no event; a file adds its evaluation event and pushes nothing |
| Walk.ForestAppend | scripts/gdrive_downloader.py:84-85 | walking a stack walks its top part first, then the part below |
| Walk.ForestBound | scripts/gdrive_downloader.py:84-85 | the walk of a stack does not depend on the rank bound used to show it ends |
| Walk.FileEventsPrefix | scripts/gdrive_downloader.py:88 | the events of the first i children are a prefix of those of all children |
| Walk.ForestPop | scripts/gdrive_downloader.py:84-85 | walking a non-empty stack walks the popped top frame, then the rest |
| Walk.TreeOfListed | scripts/gdrive_downloader.py:84-95 | a listed folder's walk is its pop event, its file events in listing order, then the walk of its pushed child folders, all of lower rank |
| Walk.TreeOfUnlisted | scripts/gdrive_downloader.py:86 | a folder whose listing fails or never ends produces its pop event and the failure event, nothing else |
| Walk.PopListed | scripts/gdrive_downloader.py:84-95 | one turn of the stack loop on a listed folder keeps "events so far + walk of the stack" equal to the whole walk |
| Walk.PopUnlisted | scripts/gdrive_downloader.py:84-86 | a turn on an unlisted folder leaves the pop and failure events followed by the walk of the rest of the stack |
| Sync.RecordOf | scripts/gdrive_downloader.py:108-111 | the definition of the log value of lines 108-111: the remote id and the remote checksum, which may be absent; stated by Sync.Evaluate and Sync.LogOfLatest |
| Sync.Written | scripts/gdrive_downloader.py:74-78 | the definition of what a download leaves at the target: the whole media when delivered, the bytes that arrived when interrupted; stated by Downloader.DownloadFile and Sync.Evaluate |
| Sync.Decide | scripts/gdrive_downloader.py:97-104 | a file is skipped exactly when its target exists and the local MD5 equals the remote checksum; a missing target or a missing checksum always downloads |
| Sync.Evaluate | scripts/gdrive_downloader.py:97-111 | one file: a skip changes nothing; a download writes the target with the media, and the run goes on exactly when the media was delivered, with the target's log key set to the file's id and checksum; an interrupted download stops the run with a transfer error for that target |
| Sync.Step | scripts/gdrive_downloader.py:84-111 | one event of the walk: a stopped run ignores it; a pop changes nothing; a listing error or a listing that never ends stops the run with the filesystem as it is, which is how the model renders the exception escaping line 86; a file goes to `Evaluate`; stated by StepKeepsLog, StopOnFailureEvent and ApplyFile |
| Sync.Apply | scripts/gdrive_downloader.py:84-111 | the state of a run: a fold of `Step` over the events in order, so a run stopped by one event ignores every later one; stated by ApplySnoc, ApplyAppend, HaltedStays and HaltedThen |
| Sync.Fetched | scripts/gdrive_downloader.py:106-107 | the files that reach `download_file`, in order: a file met while the run is going whose `Decide` is a download, including one whose transfer is then interrupted; stated by FetchedAreSeen and LogIsFetched |
| Sync.LogOf | scripts/gdrive_downloader.py:108-111 | the log's keys are exactly the targets of the downloaded files |
| Sync.ApplySnoc | scripts/gdrive_downloader.py:84-111 | applying one more event is one more step of the run |
| Sync.ApplyFile | scripts/gdrive_downloader.py:97-111 | a file met while the run is going is evaluated against the current filesystem and log |
| Sync.StepKeepsLog | scripts/gdrive_downloader.py:100-104 | a folder event or a skipped file leaves the metadata log unchanged |
| Sync.ApplyAppend | scripts/gdrive_downloader.py:84-111 | a run over two event sequences is the run over the second from the state the first leaves |
| Sync.HaltedStays | scripts/gdrive_downloader.py:86 | once a run has stopped, no further event changes it |
| Sync.HaltedThen | scripts/gdrive_downloader.py:86 | events after the stop do not change the final state |
| Sync.HaltedPrefix | scripts/gdrive_downloader.py:107 | if a prefix of the events stops the run, the whole run stops in that state |
| Sync.HaltedWithin | scripts/gdrive_downloader.py:107 | a stop inside a folder's file events is the final state of the whole run |
| Sync.StopOnFailureEvent | scripts/gdrive_downloader.py:84-86 | a listing failure right after its folder is popped stops the run with that cause and the filesystem unchanged |
| Sync.LogIsFetched | scripts/gdrive_downloader.py:106-111 | the log of a run that keeps going is the initial log updated, in order, with the id and checksum of every downloaded file (skipped files never enter it) |
| Sync.LogSnoc | scripts/gdrive_downloader.py:108 | logging one more download sets its target's key to its record |
| Sync.LogOfLast | scripts/gdrive_downloader.py:108 | the last download sets its own target's key and leaves every other key as before |
| Sync.LastWriteExtends | scripts/gdrive_downloader.py:108 | a later download to another target keeps the last download to a key the last one |
| Sync.LogOfLatest | scripts/gdrive_downloader.py:108 | every log key is the target of a downloaded file, and its value is the id and checksum of the last download to that target |
| Sync.FetchedAreSeen | scripts/gdrive_downloader.py:96-107 | only files the walk evaluates are ever downloaded |
| Sync.RunningMeansNoFailures | scripts/gdrive_downloader.py:86 | a run that completes met no listing failure and no unending listing |
| Sync.LocalNeverShrinks | scripts/gdrive_downloader.py:71-78 | a run never removes a local file |
| Sync.RunMirrors | scripts/gdrive_downloader.py:100-111 | after a completed run, with checksums matching content and distinct targets, every evaluated file's target exists with matching MD5 |
| Sync.MirroredIsIdle | scripts/gdrive_downloader.py:100-104 | over a filesystem that already mirrors every evaluated file, a run changes nothing and downloads nothing |
| Coverage.Locate | scripts/gdrive_downloader.py:88-97 | which node a route from a folder reaches: each step picks a child of a listed folder; a folder child extends the path by its name (line 94) and the route goes on from it, a file child ends the route with target `path/name` (line 97); a route that leaves a listing, passes through a file or meets a folder whose listing did not come back whole reaches nothing; stated by LocatedPath and LocateThrough, and used by ExactlyOnce, OnlyReachable and TargetsUnderBase |
| Coverage.LocatedPath | scripts/gdrive_downloader.py:94-97 | a node located by a route has the starting path extended by one name per step; a file's path ends in its own name |
| Coverage.FileEventsHave | scripts/gdrive_downloader.py:96-97 | every file child of a listed folder has its evaluation event |
| Coverage.PushedHas | scripts/gdrive_downloader.py:93-95 | every folder child of a listed folder is pushed |
| Coverage.FileEventsShape | scripts/gdrive_downloader.py:88-97 | a folder's file events are its children's, one child index deeper, in increasing listing order |
| Coverage.PushedShape | scripts/gdrive_downloader.py:88-95 | a folder's pushed frames are its child folders, one child index deeper, in increasing listing order |
| Coverage.FileEventIsChild | scripts/gdrive_downloader.py:96-97 | every file event of a folder is the event of one of its file children, with the path extended by the file's name |
| Coverage.FileEventSound | scripts/gdrive_downloader.py:96-97 | a file child's event locates that file from its folder in one step |
| Coverage.ForestHas | scripts/gdrive_downloader.py:84 | every stacked frame's walk is part of the stack's walk |
| Coverage.TreeComplete | scripts/gdrive_downloader.py:84-97 | every node reachable from a folder has its event in that folder's walk |
| Coverage.TreeListed | scripts/gdrive_downloader.py:84-95 | a listed folder's walk unfolds into its events and the walk of its child folders |
| Coverage.LocateThrough | scripts/gdrive_downloader.py:93-95 | a route through a pushed child folder locates from the child what it locates from the parent |
| Coverage.TreeSound | scripts/gdrive_downloader.py:84-97 | every folder or file event of a folder's walk is the event of the node its route locates |
| Coverage.ForestSound | scripts/gdrive_downloader.py:84-97 | every folder or file event of a stack's walk belongs to one of its frames and locates its node from there |
| Coverage.DistinctConcat | scripts/gdrive_downloader.py:84-85 | two walks with distinct routes and no shared route together have distinct routes |
| Coverage.ExtendsBoth | scripts/gdrive_downloader.py:93-95 | two prefixes of one route are comparable |
| Coverage.FilesDistinct | scripts/gdrive_downloader.py:88-97 | a folder's file events have distinct routes |
| Coverage.PushedIncomparable | scripts/gdrive_downloader.py:93-95 | no pushed child folder's route is a prefix of another's |
| Coverage.FilesApartFromFolders | scripts/gdrive_downloader.py:88-97 | a folder's own events never share a route with anything under its child folders |
| Coverage.TreeDistinct | scripts/gdrive_downloader.py:84-97 | no two folder or file events of a walk share a route |
| Coverage.ForestDistinct | scripts/gdrive_downloader.py:84-97 | a stack of frames with incomparable routes has a walk with distinct routes |
| Coverage.OccursOnce | scripts/gdrive_downloader.py:84-97 | in a trace with distinct routes, each folder or file event occurs once |
| Coverage.ExactlyOnce | scripts/gdrive_downloader.py:81-97 | every folder and file reachable from the root is popped or evaluated exactly once in the walk |
| Coverage.OnlyReachable | scripts/gdrive_downloader.py:81-97 | every folder or file event of the walk from the root is the node its route locates from the root |
| Downloader.BaseName | scripts/gdrive_downloader.py:115 | the definition of `base_local_path.name`: the last component, empty for the empty path; stated by Downloader.ReportPath and Downloader.ReportPathsCollide |
| Downloader.ReportPath | scripts/gdrive_downloader.py:113-115 | the report is `metadata/` + base name + `_downloaded_metadata.json` |
| Downloader.ReportPathsCollide | scripts/gdrive_downloader.py:115 | two runs share a report file exactly when their base directories have the same last name |
| Downloader.OutcomeOf | scripts/gdrive_downloader.py:113-116 | a report is produced exactly when the run completes; it is written to the report path and holds the run's metadata log |
| Downloader.Run | scripts/gdrive_downloader.py:80-111 | the reference run: the walk from the root work item `(folder_id, base_local_path)`, applied to the initial filesystem and an empty `metadata_log`; RecursiveDownload is proved to end in it |
| Downloader.DownloadFile | scripts/gdrive_downloader.py:71-78 | succeeds exactly when the media is delivered whole; the target then holds it (after an interruption, the part that arrived) and nothing else changes |
| Downloader.VisitFile | scripts/gdrive_downloader.py:97-111 | handling one file child is the reference evaluation: skip, download and log, or stop on a failed transfer |
| Downloader.PushFolderChild | scripts/gdrive_downloader.py:93-95 | a folder child is pushed with its path extended by its name, and the per-folder loop state moves on by one child |
| Downloader.EvaluateFileChild | scripts/gdrive_downloader.py:96-111 | a file child is evaluated against the state the earlier children left, and no frame is pushed |
| Downloader.ExpandChild | scripts/gdrive_downloader.py:88-111 | one child keeps the per-folder loop state: pushed folders and evaluated files match the reference for one more child, or the run stops where the reference stops |
| Downloader.ExpandFolder | scripts/gdrive_downloader.py:88-111 | the children loop pushes exactly the child folders in listing order, and leaves the reference state after the folder's file events (or the stop state at the failing file) |
| Downloader.StopOnUnlisted | scripts/gdrive_downloader.py:86 | a failed or unending listing ends the whole run with that cause and the filesystem as it was |
| Downloader.PopFolder | scripts/gdrive_downloader.py:84-111 | one turn of the stack loop keeps the loop invariant with more of the walk handled, or ends the run in the reference stop state |
| Downloader.RecursiveDownload | scripts/gdrive_downloader.py:80-116 | the method's final filesystem and outcome (report path and log, or failure) are exactly those of the reference run `Apply(Tree(root))` |
| Downloader.ReportIsDownloads | scripts/gdrive_downloader.py:106-116 | a completed run's report maps each downloaded target to the id and checksum of its last download, and holds only files the walk evaluated |
| Downloader.SecondRunDownloadsNothing | scripts/gdrive_downloader.py:100-111 | idempotence: with consistent remote checksums and distinct targets, a second run over the unchanged remote tree downloads nothing, changes nothing and reports an empty log |
| Downloader.TargetsUnderBase | scripts/gdrive_downloader.py:94-97 | every evaluated file's target is under the base directory, one name per folder on its route, ending in the file's own name |

## Left out

- Authentication and service construction (`build_service`), logging, the command-line entry point and JSON serialisation of the report are not modelled. They are I/O.
- The report file write and the `metadata` directory creation are not modelled. `OutcomeOf` gives the report's path and content.
- Local paths are sequences of name components. Python's `pathlib` normalisation is not modelled: names containing `/`, absolute names and `.` or `..`. The log is keyed by the path value instead of `str(path)`.
- Local names are compared exactly, with no case folding and no Unicode normalisation: the model assumes a case-sensitive local filesystem that stores names as given. On a case-insensitive or normalising filesystem, `A.txt` and `a.txt` in one folder are two targets in the model but one file on disk; `Sync.TargetsDistinct` then holds while the second run still downloads, so Downloader.SecondRunDownloadsNothing does not describe such a filesystem.
- The local filesystem holds regular files only. `exists()` being true for a directory (after which `md5_of` would fail) is not modelled, and neither are unreadable files (`IOError`).
- Responses missing a `name`, `id` or `mimeType` field (a `KeyError`) are not modelled. An entry always has those fields. A `files` key that is present but `null` is not modelled either.
- A failure of `os.makedirs` is not modelled. Destination directories always exist.
- ListFolderContents: the unbounded `while True` loop is modelled with the external request budget `maxRequests`; a listing still going when it runs out is `StillPaging`, which stops the run.
- The MD5 algorithm itself is not modelled. It is the opaque function parameter `md5`.
- DownloadFile: the chunk loop of `MediaIoBaseDownload` is abstracted as one media value, either delivered whole or interrupted, leaving the bytes that arrived. Those bytes are not tied to the file's full content, so the model does not promise that they are a prefix of it.
- The remote service answers a request the same way every time it is sent, and no concurrent change to the remote tree or the local files is modelled.
- Downloader.SecondRunDownloadsNothing: it requires distinct targets. Drive allows two files with the same name in a folder, and then they overwrite each other's target and the second run downloads again.
- Coverage.ExactlyOnce: it is stated about the walk trace. After the first failure the run itself stops (`Sync.HaltedThen`), so the later part of the trace is not acted on.
