/**
 * The recursive download: a work stack of (folder id, local path) pairs, a metadata log of the
 * files downloaded, and a report path derived from the base directory's name. The method is
 * proved to produce exactly the outcome of the reference walk (`Walk.Tree`) folded through the
 * skip-or-download rule (`Sync.Apply`).
 */
module Downloader {
  import opened Base
  import opened DriveApi
  import opened Fingerprint
  import opened Walk
  import opened Sync
  import opened Coverage

  const MetadataDir: string := "metadata"
  const ReportSuffix: string := "_downloaded_metadata.json"

  /** The last component of a path (empty for the empty path). */
  function BaseName(p: Path): (name: string)
    ensures p != [] ==> name == p[|p| - 1]
    ensures p == [] ==> name == ""
  {
    if p == [] then "" else p[|p| - 1]
  }

  /** Where the report of a run is written: `metadata/<base name>_downloaded_metadata.json`. */
  function ReportPath(base: Path): (r: Path)
    ensures |r| == 2 && r[0] == MetadataDir
    ensures |r[1]| == |BaseName(base)| + |ReportSuffix|
    ensures r[1][..|BaseName(base)|] == BaseName(base) && r[1][|BaseName(base)|..] == ReportSuffix
  {
    [MetadataDir, BaseName(base) + ReportSuffix]
  }

  /** Two runs write the same report file exactly when their base directories have the same name. */
  lemma ReportPathsCollide(a: Path, b: Path)
    ensures ReportPath(a) == ReportPath(b) <==> BaseName(a) == BaseName(b)
  {
    if ReportPath(a) == ReportPath(b) {
      assert BaseName(a) == ReportPath(a)[1][..|BaseName(a)|];
    }
  }

  /** How a run ends: the report (its path and the metadata log it holds), or the first failure and no report. */
  datatype RunOutcome = Completed(reportPath: Path, metadata: MetadataLog) | Failed(cause: Halt)

  function OutcomeOf(base: Path, s: SyncState): (r: RunOutcome)
    ensures r.Completed? <==> s.Running?
    ensures r.Completed? ==> r.reportPath == ReportPath(base) && r.metadata == s.log
  {
    match s
    case Running(_, log) => Completed(ReportPath(base), log)
    case Halted(_, cause) => Failed(cause)
  }

  /** The root work item and its (empty) route. */
  function RootFrame(folderId: string, base: Path): Frame {
    Frame(WorkItem(folderId, base), [])
  }

  /** The reference run: the walk from the root, applied to the initial local filesystem and an empty log. */
  ghost function Run(drive: Drive, md5: Bytes -> string, cfg: Config, rank: string -> nat,
                     folderId: string, base: Path, local0: LocalFs): SyncState
    requires Acyclic(drive, cfg, rank)
  {
    Apply(drive, md5, Tree(drive, cfg, rank, RootFrame(folderId, base)), Running(local0, map[]))
  }

  /**
   * Streaming a file to its destination: on success the destination holds the whole media;
   * on an interruption it holds what arrived and the reason is returned.
   */
  method DownloadFile(drive: Drive, local: LocalFs, fileId: string, dest: Path)
    returns (err: Option<string>, local': LocalFs)
    ensures err == None <==> drive.media(fileId).Delivered?
    ensures err.Some? ==> err.value == drive.media(fileId).reason
    ensures local' == local[dest := Written(drive.media(fileId))]
  {
    match drive.media(fileId)
    case Delivered(b) =>
      err, local' := None, local[dest := b];
    case Interrupted(p, e) =>
      err, local' := Some(e), local[dest := p];
  }

  /**
   * One child file: skip it when its target exists and the local MD5 equals the remote
   * checksum; otherwise download it to the target and log its id and remote checksum.
   */
  method VisitFile(drive: Drive, md5: Bytes -> string, child: Entry, path: Path, local: LocalFs, metadataLog: MetadataLog)
    returns (failure: Option<Halt>, local': LocalFs, metadataLog': MetadataLog)
    ensures failure.None? ==>
      Evaluate(drive, md5, local, metadataLog, FileTask(child, path + [child.name])) == Running(local', metadataLog')
    ensures failure.Some? ==>
      Evaluate(drive, md5, local, metadataLog, FileTask(child, path + [child.name])) == Halted(local', failure.value)
  {
    var target := path + [child.name];
    var md5Remote := child.md5Checksum;
    if target in local {
      var md5Local := Md5Of(md5, local, target);
      if Some(md5Local) == md5Remote {
        return None, local, metadataLog;
      }
    }
    var err;
    err, local' := DownloadFile(drive, local, child.id, target);
    if err.Some? {
      return Some(TransferError(target, err.value)), local', metadataLog;
    }
    failure, metadataLog' := None, metadataLog[target := LogRecord(child.id, md5Remote)];
  }

  /** The loop state after the first `i` children of a folder have been handled without failure. */
  ghost predicate ExpandedUpTo(drive: Drive, md5: Bytes -> string, kids: seq<Entry>, i: nat, path: Path, route: seq<nat>,
                               stack0: seq<WorkItem>, done: seq<Event>, init: SyncState,
                               stack: seq<WorkItem>, local: LocalFs, metadataLog: MetadataLog)
  {
    && i <= |kids|
    && stack == stack0 + Items(Pushed(kids, i, path, route))
    && Apply(drive, md5, done + FileEvents(kids, i, path, route), init) == Running(local, metadataLog)
  }

  method ExpandFolder(drive: Drive, md5: Bytes -> string, kids: seq<Entry>, path: Path, ghost route: seq<nat>,
                      stack: seq<WorkItem>, local: LocalFs, metadataLog: MetadataLog,
                      ghost done: seq<Event>, ghost init: SyncState)
    returns (failure: Option<Halt>, stack': seq<WorkItem>, local': LocalFs, metadataLog': MetadataLog, ghost upTo: nat)
    requires Apply(drive, md5, done, init) == Running(local, metadataLog)
    ensures upTo <= |kids|
    ensures failure.None? ==> upTo == |kids| && stack' == stack + Items(Pushed(kids, |kids|, path, route))
    ensures failure.None? ==>
      Apply(drive, md5, done + FileEvents(kids, |kids|, path, route), init) == Running(local', metadataLog')
    ensures failure.Some? ==>
      Apply(drive, md5, done + FileEvents(kids, upTo, path, route), init) == Halted(local', failure.value)
  {
    stack', local', metadataLog' := stack, local, metadataLog;
    failure := None;
    assert done + FileEvents(kids, 0, path, route) == done;
    for i := 0 to |kids|
      invariant failure == None
      invariant ExpandedUpTo(drive, md5, kids, i, path, route, stack, done, init, stack', local', metadataLog')
    {
      failure, stack', local', metadataLog' :=
        ExpandChild(drive, md5, kids, i, path, route, stack, done, init, stack', local', metadataLog');
      if failure.Some? {
        upTo := i + 1;
        return;
      }
    }
    upTo := |kids|;
  }

  /** A folder child is pushed with its path extended by its name, and the loop state moves on by one child. */
  lemma PushFolderChild(drive: Drive, md5: Bytes -> string, kids: seq<Entry>, i: nat, path: Path, route: seq<nat>,
                        stack0: seq<WorkItem>, done: seq<Event>, init: SyncState,
                        stack: seq<WorkItem>, local: LocalFs, metadataLog: MetadataLog)
    requires i < |kids| && IsFolder(kids[i])
    requires ExpandedUpTo(drive, md5, kids, i, path, route, stack0, done, init, stack, local, metadataLog)
    ensures ExpandedUpTo(drive, md5, kids, i + 1, path, route, stack0, done, init,
                         stack + [WorkItem(kids[i].id, path + [kids[i].name])], local, metadataLog)
  {
    ChildStep(kids, path, route, i);
    ItemsSnoc(Pushed(kids, i, path, route), Frame(WorkItem(kids[i].id, path + [kids[i].name]), route + [i]));
  }

  /** A file child is evaluated against the state the earlier children left; no frame is pushed. */
  lemma EvaluateFileChild(drive: Drive, md5: Bytes -> string, kids: seq<Entry>, i: nat, path: Path, route: seq<nat>,
                          stack0: seq<WorkItem>, done: seq<Event>, init: SyncState,
                          stack: seq<WorkItem>, local: LocalFs, metadataLog: MetadataLog)
    requires i < |kids| && !IsFolder(kids[i])
    requires ExpandedUpTo(drive, md5, kids, i, path, route, stack0, done, init, stack, local, metadataLog)
    ensures stack == stack0 + Items(Pushed(kids, i + 1, path, route))
    ensures Apply(drive, md5, done + FileEvents(kids, i + 1, path, route), init)
         == Evaluate(drive, md5, local, metadataLog, FileTask(kids[i], path + [kids[i].name]))
  {
    ChildStep(kids, path, route, i);
    var seen := FileSeen(FileTask(kids[i], path + [kids[i].name]), route + [i]);
    ApplyFile(drive, md5, done + FileEvents(kids, i, path, route), init, seen.task, seen.route, local, metadataLog);
    assert done + FileEvents(kids, i + 1, path, route) == done + FileEvents(kids, i, path, route) + [seen];
  }

  /** One child of a listed folder: a folder is pushed with the path extended by its name, a file is visited. */
  method ExpandChild(drive: Drive, md5: Bytes -> string, kids: seq<Entry>, i: nat, path: Path, ghost route: seq<nat>,
                     stack0: seq<WorkItem>, ghost done: seq<Event>, ghost init: SyncState,
                     stack: seq<WorkItem>, local: LocalFs, metadataLog: MetadataLog)
    returns (failure: Option<Halt>, stack': seq<WorkItem>, local': LocalFs, metadataLog': MetadataLog)
    requires i < |kids|
    requires ExpandedUpTo(drive, md5, kids, i, path, route, stack0, done, init, stack, local, metadataLog)
    ensures failure.None? ==> ExpandedUpTo(drive, md5, kids, i + 1, path, route, stack0, done, init, stack', local', metadataLog')
    ensures failure.Some? ==>
      Apply(drive, md5, done + FileEvents(kids, i + 1, path, route), init) == Halted(local', failure.value)
  {
    var child := kids[i];
    if IsFolder(child) {
      PushFolderChild(drive, md5, kids, i, path, route, stack0, done, init, stack, local, metadataLog);
      failure, stack', local', metadataLog' := None, stack + [WorkItem(child.id, path + [child.name])], local, metadataLog;
    } else {
      EvaluateFileChild(drive, md5, kids, i, path, route, stack0, done, init, stack, local, metadataLog);
      stack' := stack;
      failure, local', metadataLog' := VisitFile(drive, md5, child, path, local, metadataLog);
    }
  }

  /**
   * The state of the outer loop: the stack holds the work items of the ghost `frames`, every
   * frame ranks below `bound`, the events handled so far followed by the walk of the stack make
   * up the whole walk `all`, and folding the handled events gives the current filesystem and log.
   */
  ghost predicate Walking(drive: Drive, md5: Bytes -> string, cfg: Config, rank: string -> nat, bound: nat,
                          all: seq<Event>, init: SyncState, frames: seq<Frame>, done: seq<Event>,
                          stack: seq<WorkItem>, local: LocalFs, metadataLog: MetadataLog)
  {
    && Acyclic(drive, cfg, rank)
    && stack == Items(frames)
    && (forall f :: f in frames ==> rank(f.item.folderId) < bound)
    && all == done + Forest(drive, cfg, rank, frames, bound)
    && Apply(drive, md5, done, init) == Running(local, metadataLog)
  }

  /** A folder whose listing fails or never ends stops the run, with the filesystem as it was. */
  lemma StopOnUnlisted(drive: Drive, md5: Bytes -> string, cfg: Config, rank: string -> nat, bound: nat,
                       all: seq<Event>, init: SyncState, rest: seq<Frame>, top: Frame, done: seq<Event>,
                       local: LocalFs, metadataLog: MetadataLog)
    requires Acyclic(drive, cfg, rank)
    requires !ListingOf(drive, cfg, top.item.folderId).Listed?
    requires forall f :: f in rest + [top] ==> rank(f.item.folderId) < bound
    requires all == done + Forest(drive, cfg, rank, rest + [top], bound)
    requires Apply(drive, md5, done, init) == Running(local, metadataLog)
    ensures var listing := ListingOf(drive, cfg, top.item.folderId);
      Apply(drive, md5, all, init)
        == Halted(local, if listing.ListError? then RemoteError(top.item.folderId, listing.reason) else Unending(top.item.folderId))
  {
    var listing := ListingOf(drive, cfg, top.item.folderId);
    var failed := if listing.ListError? then ListingFailed(top.item.folderId, listing.reason)
                  else ListingUnending(top.item.folderId);
    var stop := done + [Expanded(top.item, top.route), failed];
    PopUnlisted(drive, cfg, rank, done, rest, top, bound);
    StopOnFailureEvent(drive, md5, done, Expanded(top.item, top.route), failed, init, local, metadataLog);
    HaltedThen(drive, md5, stop, Forest(drive, cfg, rank, rest, bound), init);
  }

  /**
   * One turn of the outer loop: pop the top work item, list its folder, expand its children.
   * Either the loop state is kept with more of the walk handled, or the run has stopped where
   * the reference walk stops.
   */
  method PopFolder(drive: Drive, md5: Bytes -> string, corpora: string, driveId: Option<string>, maxRequests: nat,
                   ghost rank: string -> nat, ghost bound: nat, ghost all: seq<Event>, ghost init: SyncState,
                   stack: seq<WorkItem>, local: LocalFs, metadataLog: MetadataLog,
                   ghost frames: seq<Frame>, ghost done: seq<Event>)
    returns (failure: Option<Halt>, stack': seq<WorkItem>, local': LocalFs, metadataLog': MetadataLog,
             ghost frames': seq<Frame>, ghost done': seq<Event>)
    requires stack != []
    requires Walking(drive, md5, Config(corpora, driveId, maxRequests), rank, bound, all, init, frames, done, stack, local, metadataLog)
    ensures failure.None? ==>
      Walking(drive, md5, Config(corpora, driveId, maxRequests), rank, bound, all, init, frames', done', stack', local', metadataLog')
    ensures failure.None? ==> |done| < |done'|
    ensures failure.Some? ==> Apply(drive, md5, all, init) == Halted(local', failure.value)
  {
    ghost var cfg := Config(corpora, driveId, maxRequests);
    frames', done' := frames, done;
    var n := |stack| - 1;
    var current := stack[n];
    stack' := stack[..n];
    ghost var top := frames[n];
    ghost var rest := frames[..n];
    assert frames == rest + [top];
    ItemsSnoc(rest, top);
    assert stack' == Items(rest) && current == top.item;
    ghost var expanded := Expanded(top.item, top.route);

    var children := ListFolderContents(drive, current.folderId, corpora, driveId, maxRequests);
    if !children.Listed? {
      StopOnUnlisted(drive, md5, cfg, rank, bound, all, init, rest, top, done, local, metadataLog);
      failure := Some(if children.ListError? then RemoteError(current.folderId, children.reason) else Unending(current.folderId));
      local', metadataLog' := local, metadataLog;
      return;
    }

    var kids := children.entries;
    ApplySnoc(drive, md5, done, expanded, init);
    ghost var pushed := Pushed(kids, |kids|, current.path, top.route);
    PopListed(drive, cfg, rank, done, rest, top, kids, bound);
    ghost var upTo;
    failure, stack', local', metadataLog', upTo :=
      ExpandFolder(drive, md5, kids, current.path, top.route, stack', local, metadataLog, done + [expanded], init);
    if failure.Some? {
      FileEventsPrefix(kids, current.path, top.route, upTo);
      HaltedWithin(drive, md5, done + [expanded], FileEvents(kids, upTo, current.path, top.route),
                   FileEvents(kids, |kids|, current.path, top.route), Forest(drive, cfg, rank, rest + pushed, bound), init);
      return;
    }
    ItemsAppend(rest, pushed);
    frames' := rest + pushed;
    done' := done + [expanded] + FileEvents(kids, |kids|, current.path, top.route);
  }

  /**
   * The recursive download. Starts from the root work item, pops and expands folders until the
   * stack is empty, and only then produces the report; any failure ends the run without one.
   */
  method RecursiveDownload(drive: Drive, md5: Bytes -> string, folderId: string, base: Path,
                           corpora: string, driveId: Option<string>, maxRequests: nat,
                           local0: LocalFs, ghost rank: string -> nat)
    returns (outcome: RunOutcome, local: LocalFs)
    requires Acyclic(drive, Config(corpora, driveId, maxRequests), rank)
    ensures local == Run(drive, md5, Config(corpora, driveId, maxRequests), rank, folderId, base, local0).local
    ensures outcome == OutcomeOf(base, Run(drive, md5, Config(corpora, driveId, maxRequests), rank, folderId, base, local0))
  {
    ghost var cfg := Config(corpora, driveId, maxRequests);
    ghost var init := Running(local0, map[]);
    ghost var bound := rank(folderId) + 1;
    ghost var all := Tree(drive, cfg, rank, RootFrame(folderId, base));
    var stack: seq<WorkItem> := [WorkItem(folderId, base)];
    var metadataLog: MetadataLog := map[];
    local := local0;
    ghost var frames: seq<Frame> := [RootFrame(folderId, base)];
    ghost var done: seq<Event> := [];
    ForestPop(drive, cfg, rank, frames, bound);
    assert frames[..0] == [];
    ItemsSnoc([], RootFrame(folderId, base));

    while stack != []
      invariant Walking(drive, md5, cfg, rank, bound, all, init, frames, done, stack, local, metadataLog)
      decreases |all| - |done|
    {
      var failure;
      failure, stack, local, metadataLog, frames, done :=
        PopFolder(drive, md5, corpora, driveId, maxRequests, rank, bound, all, init, stack, local, metadataLog, frames, done);
      if failure.Some? {
        outcome := Failed(failure.value);
        return;
      }
    }
    assert done == all;
    outcome := Completed(ReportPath(base), metadataLog);
  }

  /** The files a run downloads, in order. */
  ghost function Downloads(drive: Drive, md5: Bytes -> string, cfg: Config, rank: string -> nat,
                           folderId: string, base: Path, local0: LocalFs): seq<FileTask>
    requires Acyclic(drive, cfg, rank)
  {
    Fetched(drive, md5, Tree(drive, cfg, rank, RootFrame(folderId, base)), Running(local0, map[]))
  }

  /**
   * The report of a completed run holds exactly the files the run downloaded, each target
   * mapped to the id and checksum of the last file downloaded there; skipped files and folders
   * never appear.
   */
  lemma ReportIsDownloads(drive: Drive, md5: Bytes -> string, cfg: Config, rank: string -> nat,
                          folderId: string, base: Path, local0: LocalFs)
    requires Acyclic(drive, cfg, rank)
    requires OutcomeOf(base, Run(drive, md5, cfg, rank, folderId, base, local0)).Completed?
    ensures OutcomeOf(base, Run(drive, md5, cfg, rank, folderId, base, local0)).metadata
         == LogOf(Downloads(drive, md5, cfg, rank, folderId, base, local0))
    ensures forall t :: t in Downloads(drive, md5, cfg, rank, folderId, base, local0) ==>
      t in SeenTasks(Tree(drive, cfg, rank, RootFrame(folderId, base)))
  {
    var evs := Tree(drive, cfg, rank, RootFrame(folderId, base));
    LogIsFetched(drive, md5, evs, local0, map[]);
    assert map[] + LogOf(Downloads(drive, md5, cfg, rank, folderId, base, local0))
        == LogOf(Downloads(drive, md5, cfg, rank, folderId, base, local0));
    FetchedAreSeen(drive, md5, evs, Running(local0, map[]));
  }

  /**
   * Idempotence: when the service's bytes match their checksums and no two files share a local
   * target, running again over the unchanged remote tree, on the filesystem a completed run
   * left, downloads nothing and reports an empty metadata log.
   */
  lemma SecondRunDownloadsNothing(drive: Drive, md5: Bytes -> string, cfg: Config, rank: string -> nat,
                                  folderId: string, base: Path, local0: LocalFs)
    requires Acyclic(drive, cfg, rank)
    requires Run(drive, md5, cfg, rank, folderId, base, local0).Running?
    requires forall t :: t in SeenTasks(Tree(drive, cfg, rank, RootFrame(folderId, base))) ==> Consistent(drive, md5, t)
    requires TargetsDistinct(SeenTasks(Tree(drive, cfg, rank, RootFrame(folderId, base))))
    ensures var local1 := Run(drive, md5, cfg, rank, folderId, base, local0).local;
      && Downloads(drive, md5, cfg, rank, folderId, base, local1) == []
      && Run(drive, md5, cfg, rank, folderId, base, local1) == Running(local1, map[])
      && OutcomeOf(base, Run(drive, md5, cfg, rank, folderId, base, local1)) == Completed(ReportPath(base), map[])
  {
    var evs := Tree(drive, cfg, rank, RootFrame(folderId, base));
    var local1 := Run(drive, md5, cfg, rank, folderId, base, local0).local;
    RunMirrors(drive, md5, evs, local0, map[]);
    RunningMeansNoFailures(drive, md5, evs, Running(local0, map[]));
    MirroredIsIdle(drive, md5, evs, local1, map[]);
  }

  /**
   * Every file the walk evaluates is mirrored under the base directory: its target is the
   * base path, one name per folder on its route, and its own name last.
   */
  lemma TargetsUnderBase(drive: Drive, cfg: Config, rank: string -> nat, folderId: string, base: Path, ev: Event)
    requires Acyclic(drive, cfg, rank)
    requires ev in Tree(drive, cfg, rank, RootFrame(folderId, base)) && ev.FileSeen?
    ensures base <= ev.task.target
    ensures |ev.route| > 0 && |ev.task.target| == |base| + |ev.route|
            && ev.task.target[|ev.task.target| - 1] == ev.task.entry.name
  {
    OnlyReachable(drive, cfg, rank, WorkItem(folderId, base), ev);
    LocatedPath(drive, cfg, WorkItem(folderId, base), ev.route);
  }
}
