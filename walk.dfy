/**
 * The folder walk of the downloader, as a reference definition. Each work item is a
 * (folder id, local path) pair; the walk is described by the trace of events it produces:
 * one `Expanded` when a work item is popped, then either a listing failure or one `FileSeen`
 * per file child, in listing order, and then the walks of the child folders. Because the work
 * stack is last-in first-out, the child folders are walked after all the folder's files, the
 * last-listed first, each to completion before the next.
 *
 * A route is the sequence of child indices that leads from the root to a node; it is ghost
 * bookkeeping that makes "each node is visited exactly once" expressible.
 */
module Walk {
  import opened Base
  import opened DriveApi

  /** The listing settings fixed for a whole run. */
  datatype Config = Config(corpora: string, driveId: Option<string>, maxRequests: nat)

  /** A pending (folder id, local path) pair of the work stack. */
  datatype WorkItem = WorkItem(folderId: string, path: Path)

  /** A file entry and the local path it is mirrored to. */
  datatype FileTask = FileTask(entry: Entry, target: Path)

  /** A work item together with its route from the root. */
  datatype Frame = Frame(item: WorkItem, route: seq<nat>)

  datatype Event =
    | Expanded(item: WorkItem, route: seq<nat>)
    | ListingFailed(folderId: string, reason: string)
    | ListingUnending(folderId: string)
    | FileSeen(task: FileTask, route: seq<nat>)

  /** The work items of a stack of frames, bottom to top. */
  function Items(frames: seq<Frame>): (r: seq<WorkItem>)
    ensures |r| == |frames|
    decreases |frames|
  {
    if frames == [] then [] else Items(frames[..|frames| - 1]) + [frames[|frames| - 1].item]
  }

  lemma {:induction false} ItemsAppend(a: seq<Frame>, b: seq<Frame>)
    ensures Items(a + b) == Items(a) + Items(b)
    decreases |b|
  {
    if b == [] {
      assert a + b == a;
    } else {
      var n := |b| - 1;
      assert (a + b)[..|a + b| - 1] == a + b[..n];
      ItemsAppend(a, b[..n]);
    }
  }

  /** Pushing one frame pushes its work item. */
  lemma ItemsSnoc(a: seq<Frame>, f: Frame)
    ensures Items(a + [f]) == Items(a) + [f.item]
  {
    assert (a + [f])[..|a|] == a;
  }

  /** The events that name a node of the tree (a popped folder or an evaluated file). */
  predicate Routed(ev: Event) {
    ev.Expanded? || ev.FileSeen?
  }

  /** How a folder's listing comes out in this run. */
  function ListingOf(drive: Drive, cfg: Config, folderId: string): Listing {
    ListSpec(drive.list(RequestFor(folderId, cfg.corpora, cfg.driveId)), cfg.maxRequests)
  }

  function FolderIds(kids: seq<Entry>): set<string> {
    set e | e in kids && IsFolder(e) :: e.id
  }

  /** Every folder listed under `folderId` ranks strictly below it. */
  predicate RankedAt(drive: Drive, cfg: Config, rank: string -> nat, folderId: string) {
    var l := ListingOf(drive, cfg, folderId);
    l.Listed? ==> forall c :: c in FolderIds(l.entries) ==> rank(c) < rank(folderId)
  }

  /** The folder graph has no cycle: `rank` strictly decreases from every folder to its child folders. */
  ghost predicate Acyclic(drive: Drive, cfg: Config, rank: string -> nat) {
    forall id :: RankedAt(drive, cfg, rank, id)
  }

  /** The file children among the first `n` children of a folder, as events in listing order; child `i` gets route `route + [i]`. */
  function FileEvents(kids: seq<Entry>, n: nat, path: Path, route: seq<nat>): seq<Event>
    requires n <= |kids|
    decreases n
  {
    if n == 0 then []
    else
      FileEvents(kids, n - 1, path, route)
        + (if IsFolder(kids[n - 1]) then [] else [FileSeen(FileTask(kids[n - 1], path + [kids[n - 1].name]), route + [n - 1])])
  }

  /** The child folders among the first `n` children of a folder, as the frames pushed on the stack, in listing order. */
  function Pushed(kids: seq<Entry>, n: nat, path: Path, route: seq<nat>): (r: seq<Frame>)
    requires n <= |kids|
    ensures forall f :: f in r ==> f.item.folderId in FolderIds(kids)
    decreases n
  {
    if n == 0 then []
    else
      Pushed(kids, n - 1, path, route)
        + (if IsFolder(kids[n - 1]) then [Frame(WorkItem(kids[n - 1].id, path + [kids[n - 1].name]), route + [n - 1])] else [])
  }

  /** Handling child `i`: a folder adds a frame and no event, a file adds its event and no frame. */
  lemma ChildStep(kids: seq<Entry>, path: Path, route: seq<nat>, i: nat)
    requires i < |kids|
    ensures IsFolder(kids[i]) ==>
      && FileEvents(kids, i + 1, path, route) == FileEvents(kids, i, path, route)
      && Pushed(kids, i + 1, path, route)
         == Pushed(kids, i, path, route) + [Frame(WorkItem(kids[i].id, path + [kids[i].name]), route + [i])]
    ensures !IsFolder(kids[i]) ==>
      && FileEvents(kids, i + 1, path, route)
         == FileEvents(kids, i, path, route) + [FileSeen(FileTask(kids[i], path + [kids[i].name]), route + [i])]
      && Pushed(kids, i + 1, path, route) == Pushed(kids, i, path, route)
  {
  }

  /** The events of walking one frame to completion. */
  ghost function Tree(drive: Drive, cfg: Config, rank: string -> nat, f: Frame): seq<Event>
    requires Acyclic(drive, cfg, rank)
    decreases rank(f.item.folderId), 1, 0
  {
    [Expanded(f.item, f.route)] +
    match ListingOf(drive, cfg, f.item.folderId)
    case ListError(e) => [ListingFailed(f.item.folderId, e)]
    case StillPaging(_) => [ListingUnending(f.item.folderId)]
    case Listed(kids) =>
      assert RankedAt(drive, cfg, rank, f.item.folderId);
      FileEvents(kids, |kids|, f.item.path, f.route)
        + Forest(drive, cfg, rank, Pushed(kids, |kids|, f.item.path, f.route), rank(f.item.folderId))
  }

  /** The events of walking a stack of frames: the top (last) frame first, down to the bottom. */
  ghost function Forest(drive: Drive, cfg: Config, rank: string -> nat, frames: seq<Frame>, bound: nat): seq<Event>
    requires Acyclic(drive, cfg, rank)
    requires forall f :: f in frames ==> rank(f.item.folderId) < bound
    decreases bound, 0, |frames|
  {
    if frames == [] then []
    else
      var n := |frames| - 1;
      Tree(drive, cfg, rank, frames[n]) + Forest(drive, cfg, rank, frames[..n], bound)
  }

  /** Walking a stack `below + above` walks `above` first. */
  lemma {:induction false} ForestAppend(drive: Drive, cfg: Config, rank: string -> nat, below: seq<Frame>, above: seq<Frame>, bound: nat)
    requires Acyclic(drive, cfg, rank)
    requires forall f :: f in below + above ==> rank(f.item.folderId) < bound
    ensures Forest(drive, cfg, rank, below + above, bound)
         == Forest(drive, cfg, rank, above, bound) + Forest(drive, cfg, rank, below, bound)
    decreases |above|
  {
    if above != [] {
      var n := |above| - 1;
      assert (below + above)[..|below + above| - 1] == below + above[..n];
      ForestAppend(drive, cfg, rank, below, above[..n], bound);
    } else {
      assert below + above == below;
    }
  }

  /** The bound only serves termination: it does not change the walk. */
  lemma {:induction false} ForestBound(drive: Drive, cfg: Config, rank: string -> nat, frames: seq<Frame>, b1: nat, b2: nat)
    requires Acyclic(drive, cfg, rank)
    requires forall f :: f in frames ==> rank(f.item.folderId) < b1 && rank(f.item.folderId) < b2
    ensures Forest(drive, cfg, rank, frames, b1) == Forest(drive, cfg, rank, frames, b2)
    decreases |frames|
  {
    if frames != [] {
      ForestBound(drive, cfg, rank, frames[..|frames| - 1], b1, b2);
    }
  }

  /** The file events of the first `i` children are a prefix of the file events of all of them. */
  lemma {:induction false} FileEventsPrefix(kids: seq<Entry>, path: Path, route: seq<nat>, i: nat)
    requires i <= |kids|
    ensures FileEvents(kids, i, path, route) <= FileEvents(kids, |kids|, path, route)
    decreases |kids| - i
  {
    if i < |kids| {
      FileEventsPrefix(kids, path, route, i + 1);
    }
  }

  /** Popping the top frame of a stack: its walk comes first, then the rest of the stack's. */
  lemma ForestPop(drive: Drive, cfg: Config, rank: string -> nat, frames: seq<Frame>, bound: nat)
    requires Acyclic(drive, cfg, rank)
    requires frames != [] && forall f :: f in frames ==> rank(f.item.folderId) < bound
    ensures Forest(drive, cfg, rank, frames, bound)
         == Tree(drive, cfg, rank, frames[|frames| - 1]) + Forest(drive, cfg, rank, frames[..|frames| - 1], bound)
  {
  }

  /**
   * The walk of a listed folder: the folder itself, its files, then the walk of the stack of its
   * child folders (under any bound above the folder's rank).
   */
  lemma TreeOfListed(drive: Drive, cfg: Config, rank: string -> nat, f: Frame, kids: seq<Entry>, bound: nat)
    requires Acyclic(drive, cfg, rank)
    requires ListingOf(drive, cfg, f.item.folderId) == Listed(kids)
    requires rank(f.item.folderId) < bound
    ensures forall g :: g in Pushed(kids, |kids|, f.item.path, f.route) ==> rank(g.item.folderId) < bound
    ensures Tree(drive, cfg, rank, f)
         == [Expanded(f.item, f.route)] + FileEvents(kids, |kids|, f.item.path, f.route)
            + Forest(drive, cfg, rank, Pushed(kids, |kids|, f.item.path, f.route), bound)
  {
    assert RankedAt(drive, cfg, rank, f.item.folderId);
    ForestBound(drive, cfg, rank, Pushed(kids, |kids|, f.item.path, f.route), rank(f.item.folderId), bound);
  }

  /** The walk of a folder whose listing failed or never ended: the folder, then the failure. */
  lemma TreeOfUnlisted(drive: Drive, cfg: Config, rank: string -> nat, f: Frame)
    requires Acyclic(drive, cfg, rank)
    requires !ListingOf(drive, cfg, f.item.folderId).Listed?
    ensures ListingOf(drive, cfg, f.item.folderId).ListError? ==>
      Tree(drive, cfg, rank, f)
        == [Expanded(f.item, f.route), ListingFailed(f.item.folderId, ListingOf(drive, cfg, f.item.folderId).reason)]
    ensures ListingOf(drive, cfg, f.item.folderId).StillPaging? ==>
      Tree(drive, cfg, rank, f) == [Expanded(f.item, f.route), ListingUnending(f.item.folderId)]
  {
  }

  /** Popping a listed folder off the stack: its files come next, then its child folders, then the rest of the stack. */
  lemma PopListed(drive: Drive, cfg: Config, rank: string -> nat, done: seq<Event>, rest: seq<Frame>, top: Frame,
                  kids: seq<Entry>, bound: nat)
    requires Acyclic(drive, cfg, rank)
    requires ListingOf(drive, cfg, top.item.folderId) == Listed(kids)
    requires forall f :: f in rest + [top] ==> rank(f.item.folderId) < bound
    ensures forall g :: g in rest + Pushed(kids, |kids|, top.item.path, top.route) ==> rank(g.item.folderId) < bound
    ensures done + Forest(drive, cfg, rank, rest + [top], bound)
         == (done + [Expanded(top.item, top.route)]) + FileEvents(kids, |kids|, top.item.path, top.route)
            + Forest(drive, cfg, rank, rest + Pushed(kids, |kids|, top.item.path, top.route), bound)
  {
    var pushed := Pushed(kids, |kids|, top.item.path, top.route);
    var files := FileEvents(kids, |kids|, top.item.path, top.route);
    assert top in rest + [top];
    TreeOfListed(drive, cfg, rank, top, kids, bound);
    calc {
      done + Forest(drive, cfg, rank, rest + [top], bound);
    == { ForestPop(drive, cfg, rank, rest + [top], bound);
         assert (rest + [top])[..|rest + [top]| - 1] == rest; }
      done + (Tree(drive, cfg, rank, top) + Forest(drive, cfg, rank, rest, bound));
    ==
      done + (([Expanded(top.item, top.route)] + files + Forest(drive, cfg, rank, pushed, bound))
              + Forest(drive, cfg, rank, rest, bound));
    == { Regroup(done, Expanded(top.item, top.route), files, Forest(drive, cfg, rank, pushed, bound),
                 Forest(drive, cfg, rank, rest, bound)); }
      (done + [Expanded(top.item, top.route)]) + files
        + (Forest(drive, cfg, rank, pushed, bound) + Forest(drive, cfg, rank, rest, bound));
    == { ForestAppend(drive, cfg, rank, rest, pushed, bound); }
      (done + [Expanded(top.item, top.route)]) + files + Forest(drive, cfg, rank, rest + pushed, bound);
    }
  }

  /** Popping a folder whose listing did not succeed: the failure event comes right after it. */
  lemma PopUnlisted(drive: Drive, cfg: Config, rank: string -> nat, done: seq<Event>, rest: seq<Frame>, top: Frame, bound: nat)
    requires Acyclic(drive, cfg, rank)
    requires !ListingOf(drive, cfg, top.item.folderId).Listed?
    requires forall f :: f in rest + [top] ==> rank(f.item.folderId) < bound
    ensures var failure := if ListingOf(drive, cfg, top.item.folderId).ListError?
                           then ListingFailed(top.item.folderId, ListingOf(drive, cfg, top.item.folderId).reason)
                           else ListingUnending(top.item.folderId);
      done + Forest(drive, cfg, rank, rest + [top], bound)
        == (done + [Expanded(top.item, top.route), failure]) + Forest(drive, cfg, rank, rest, bound)
  {
    ForestPop(drive, cfg, rank, rest + [top], bound);
    assert (rest + [top])[..|rest + [top]| - 1] == rest;
    TreeOfUnlisted(drive, cfg, rank, top);
  }
}
