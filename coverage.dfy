/**
 * What the walk covers. A node of the remote tree is named by its route from a folder: the
 * sequence of child indices (positions in each folder's listing) that leads to it. `Locate`
 * follows a route; the walk of `Walk.Tree` is shown to hold one event for every node that can
 * be located (completeness), only events for such nodes (soundness), and no two events with the
 * same route — so every reachable folder is popped, and every file under it evaluated, exactly once.
 */
module Coverage {
  import opened Base
  import opened DriveApi
  import opened Walk

  /** A node of the remote tree, with the local path the walk gives it. */
  datatype Node = FolderNode(item: WorkItem) | FileNode(task: FileTask)

  function PathOf(x: Node): Path {
    match x
    case FolderNode(item) => item.path
    case FileNode(task) => task.target
  }

  /**
   * The node reached from the folder `item` by following `steps`: each step picks a child of
   * the current folder's listing; a folder child gets the path extended by its name and the
   * walk goes on from it, a file child ends the route. None when a step leaves the listing,
   * passes through a file, or meets a folder whose listing did not come back whole.
   */
  function Locate(drive: Drive, cfg: Config, item: WorkItem, steps: seq<nat>): Option<Node>
    decreases |steps|
  {
    if steps == [] then Some(FolderNode(item))
    else match ListingOf(drive, cfg, item.folderId)
      case Listed(kids) =>
        if steps[0] < |kids| then
          var child := kids[steps[0]];
          if IsFolder(child) then Locate(drive, cfg, WorkItem(child.id, item.path + [child.name]), steps[1..])
          else if |steps| == 1 then Some(FileNode(FileTask(child, item.path + [child.name])))
          else None
        else None
      case _ => None
  }

  /** The event the walk produces for a node met at `route`. */
  function EventFor(x: Node, route: seq<nat>): Event {
    match x
    case FolderNode(item) => Expanded(item, route)
    case FileNode(task) => FileSeen(task, route)
  }

  /** The node a routed event is about. */
  function NodeOf(ev: Event): Node
    requires Routed(ev)
  {
    if ev.Expanded? then FolderNode(ev.item) else FileNode(ev.task)
  }

  /**
   * Each step appends exactly one name: the path of a located node extends the starting
   * folder's path by one name per step, and a file's path ends in the file's own name.
   */
  lemma {:induction false} LocatedPath(drive: Drive, cfg: Config, item: WorkItem, steps: seq<nat>)
    requires Locate(drive, cfg, item, steps).Some?
    ensures item.path <= PathOf(Locate(drive, cfg, item, steps).value)
    ensures |PathOf(Locate(drive, cfg, item, steps).value)| == |item.path| + |steps|
    ensures Locate(drive, cfg, item, steps).value.FileNode? ==>
      var t := Locate(drive, cfg, item, steps).value.task;
      t.target[|t.target| - 1] == t.entry.name
    decreases |steps|
  {
    if steps != [] {
      var kids := ListingOf(drive, cfg, item.folderId).entries;
      var child := kids[steps[0]];
      if IsFolder(child) {
        var next := WorkItem(child.id, item.path + [child.name]);
        LocatedPath(drive, cfg, next, steps[1..]);
        assert item.path <= next.path;
      }
    }
  }

  /** A file child among the first `n` has its event among the first `n` file events. */
  lemma {:induction false} FileEventsHave(kids: seq<Entry>, n: nat, path: Path, route: seq<nat>, i: nat)
    requires i < n <= |kids| && !IsFolder(kids[i])
    ensures FileSeen(FileTask(kids[i], path + [kids[i].name]), route + [i]) in FileEvents(kids, n, path, route)
    decreases n
  {
    if i < n - 1 {
      FileEventsHave(kids, n - 1, path, route, i);
    }
  }

  /** A folder child among the first `n` has its frame among the first `n` pushed frames. */
  lemma {:induction false} PushedHas(kids: seq<Entry>, n: nat, path: Path, route: seq<nat>, i: nat)
    requires i < n <= |kids| && IsFolder(kids[i])
    ensures Frame(WorkItem(kids[i].id, path + [kids[i].name]), route + [i]) in Pushed(kids, n, path, route)
    decreases n
  {
    if i < n - 1 {
      PushedHas(kids, n - 1, path, route, i);
    }
  }

  /** The walk of a stack contains the walk of each of its frames. */
  lemma {:induction false} ForestHas(drive: Drive, cfg: Config, rank: string -> nat, frames: seq<Frame>, bound: nat,
                                     k: nat, ev: Event)
    requires Acyclic(drive, cfg, rank)
    requires forall f :: f in frames ==> rank(f.item.folderId) < bound
    requires k < |frames| && ev in Tree(drive, cfg, rank, frames[k])
    ensures ev in Forest(drive, cfg, rank, frames, bound)
    decreases |frames|
  {
    var n := |frames| - 1;
    ForestPop(drive, cfg, rank, frames, bound);
    if k < n {
      assert frames[..n][k] == frames[k];
      ForestHas(drive, cfg, rank, frames[..n], bound, k, ev);
    }
  }

  /** Completeness: the walk from a frame holds the event of every node located from it. */
  lemma {:induction false} TreeComplete(drive: Drive, cfg: Config, rank: string -> nat, item: WorkItem, route: seq<nat>,
                                        steps: seq<nat>)
    requires Acyclic(drive, cfg, rank)
    requires Locate(drive, cfg, item, steps).Some?
    ensures EventFor(Locate(drive, cfg, item, steps).value, route + steps) in Tree(drive, cfg, rank, Frame(item, route))
    decreases |steps|
  {
    var f := Frame(item, route);
    if steps == [] {
      assert route + steps == route;
    } else {
      var kids := ListingOf(drive, cfg, item.folderId).entries;
      var i := steps[0];
      var child := kids[i];
      var bound := rank(item.folderId) + 1;
      TreeOfListed(drive, cfg, rank, f, kids, bound);
      assert route + steps == (route + [i]) + steps[1..];
      if IsFolder(child) {
        var next := Frame(WorkItem(child.id, item.path + [child.name]), route + [i]);
        var pushed := Pushed(kids, |kids|, item.path, route);
        TreeComplete(drive, cfg, rank, next.item, next.route, steps[1..]);
        PushedHas(kids, |kids|, item.path, route, i);
        var k :| 0 <= k < |pushed| && pushed[k] == next;
        ForestHas(drive, cfg, rank, pushed, bound, k, EventFor(Locate(drive, cfg, item, steps).value, route + steps));
      } else {
        assert steps == [i];
        FileEventsHave(kids, |kids|, item.path, route, i);
      }
    }
  }

  /** `r` starts with `prefix`. */
  predicate Extends(r: seq<nat>, prefix: seq<nat>) {
    |prefix| <= |r| && r[..|prefix|] == prefix
  }

  /** The child index a route `r` takes right after `route` (-1 when it goes no further). */
  function Branch(route: seq<nat>, r: seq<nat>): int {
    if |route| < |r| then r[|route|] else -1
  }

  /** `ev` is the event of file child `ev.route[|route|]` (one of the first `n`) of the folder at `route`. */
  predicate FileChildEvent(kids: seq<Entry>, n: nat, path: Path, route: seq<nat>, ev: Event)
    requires n <= |kids|
  {
    && ev.FileSeen? && |ev.route| == |route| + 1 && ev.route[..|route|] == route
    && ev.route[|route|] < n
    && !IsFolder(kids[ev.route[|route|]])
    && ev.task == FileTask(kids[ev.route[|route|]], path + [kids[ev.route[|route|]].name])
  }

  /** `f` is the frame of folder child `f.route[|route|]` (one of the first `n`) of the folder at `route`. */
  predicate FolderChildFrame(kids: seq<Entry>, n: nat, path: Path, route: seq<nat>, f: Frame)
    requires n <= |kids|
  {
    && |f.route| == |route| + 1 && f.route[..|route|] == route
    && f.route[|route|] < n
    && IsFolder(kids[f.route[|route|]])
    && f.item == WorkItem(kids[f.route[|route|]].id, path + [kids[f.route[|route|]].name])
  }

  /** The file events of a folder are those of its file children, in increasing child order. */
  lemma {:induction false} FileEventsShape(kids: seq<Entry>, n: nat, path: Path, route: seq<nat>)
    requires n <= |kids|
    ensures forall a :: 0 <= a < |FileEvents(kids, n, path, route)| ==>
      FileChildEvent(kids, n, path, route, FileEvents(kids, n, path, route)[a])
    ensures forall a, b :: 0 <= a < b < |FileEvents(kids, n, path, route)| ==>
      && FileEvents(kids, n, path, route)[a].FileSeen? && FileEvents(kids, n, path, route)[b].FileSeen?
      && Branch(route, FileEvents(kids, n, path, route)[a].route) < Branch(route, FileEvents(kids, n, path, route)[b].route)
    decreases n
  {
    if n > 0 {
      FileEventsShape(kids, n - 1, path, route);
      var pre := FileEvents(kids, n - 1, path, route);
      var all := FileEvents(kids, n, path, route);
      assert forall a :: 0 <= a < |pre| ==> all[a] == pre[a];
    }
  }

  /** The pushed frames of a folder are those of its folder children, in increasing child order. */
  lemma {:induction false} PushedShape(kids: seq<Entry>, n: nat, path: Path, route: seq<nat>)
    requires n <= |kids|
    ensures forall a :: 0 <= a < |Pushed(kids, n, path, route)| ==>
      FolderChildFrame(kids, n, path, route, Pushed(kids, n, path, route)[a])
    ensures forall a, b :: 0 <= a < b < |Pushed(kids, n, path, route)| ==>
      Branch(route, Pushed(kids, n, path, route)[a].route) < Branch(route, Pushed(kids, n, path, route)[b].route)
    decreases n
  {
    if n > 0 {
      PushedShape(kids, n - 1, path, route);
      var pre := Pushed(kids, n - 1, path, route);
      var all := Pushed(kids, n, path, route);
      assert forall a :: 0 <= a < |pre| ==> all[a] == pre[a];
    }
  }

  /** The walk of a listed folder, unfolded at the folder's own rank. */
  lemma TreeListed(drive: Drive, cfg: Config, rank: string -> nat, f: Frame, kids: seq<Entry>)
    requires Acyclic(drive, cfg, rank)
    requires ListingOf(drive, cfg, f.item.folderId) == Listed(kids)
    ensures forall g :: g in Pushed(kids, |kids|, f.item.path, f.route) ==> rank(g.item.folderId) < rank(f.item.folderId)
    ensures Tree(drive, cfg, rank, f)
         == [Expanded(f.item, f.route)] + FileEvents(kids, |kids|, f.item.path, f.route)
            + Forest(drive, cfg, rank, Pushed(kids, |kids|, f.item.path, f.route), rank(f.item.folderId))
  {
    var pushed := Pushed(kids, |kids|, f.item.path, f.route);
    assert RankedAt(drive, cfg, rank, f.item.folderId);
    forall g | g in pushed
      ensures rank(g.item.folderId) < rank(f.item.folderId)
    {
      assert g.item.folderId in FolderIds(kids);
    }
    var files := FileEvents(kids, |kids|, f.item.path, f.route);
    var below := Forest(drive, cfg, rank, pushed, rank(f.item.folderId));
    assert Tree(drive, cfg, rank, f) == [Expanded(f.item, f.route)] + (files + below);
    Assoc([Expanded(f.item, f.route)], files, below);
  }

  /** Locating through a folder child: the first step enters the child, the rest is located from there. */
  lemma LocateThrough(drive: Drive, cfg: Config, item: WorkItem, kids: seq<Entry>, route: seq<nat>, child: Frame, r: seq<nat>)
    requires ListingOf(drive, cfg, item.folderId) == Listed(kids)
    requires FolderChildFrame(kids, |kids|, item.path, route, child)
    requires Extends(r, child.route)
    ensures Extends(r, route)
    ensures Locate(drive, cfg, item, r[|route|..]) == Locate(drive, cfg, child.item, r[|child.route|..])
  {
    var steps := r[|route|..];
    assert steps[0] == child.route[|route|];
    assert steps[1..] == r[|child.route|..];
    assert r[..|route|] == r[..|child.route|][..|route|];
  }

  /** A file event of a folder is the event of one of its file children. */
  lemma FileEventIsChild(kids: seq<Entry>, path: Path, route: seq<nat>, ev: Event)
    requires ev in FileEvents(kids, |kids|, path, route)
    ensures FileChildEvent(kids, |kids|, path, route, ev)
  {
    var files := FileEvents(kids, |kids|, path, route);
    FileEventsShape(kids, |kids|, path, route);
    var a :| 0 <= a < |files| && files[a] == ev;
  }

  /** A file event of a listed folder locates its file from the folder in one step. */
  lemma FileEventSound(drive: Drive, cfg: Config, item: WorkItem, kids: seq<Entry>, route: seq<nat>, ev: Event)
    requires ListingOf(drive, cfg, item.folderId) == Listed(kids)
    requires FileChildEvent(kids, |kids|, item.path, route, ev)
    ensures Routed(ev) && Extends(ev.route, route)
    ensures Locate(drive, cfg, item, ev.route[|route|..]) == Some(NodeOf(ev))
  {
    assert ev.route[|route|..] == [ev.route[|route|]];
  }

  /**
   * Soundness: every folder or file event of the walk from a frame is the event of the node
   * its route locates from that frame.
   */
  lemma {:induction false} TreeSound(drive: Drive, cfg: Config, rank: string -> nat, f: Frame, ev: Event)
    requires Acyclic(drive, cfg, rank)
    requires ev in Tree(drive, cfg, rank, f) && Routed(ev)
    ensures Extends(ev.route, f.route)
    ensures Locate(drive, cfg, f.item, ev.route[|f.route|..]) == Some(NodeOf(ev))
    decreases rank(f.item.folderId), 1, 0
  {
    var listing := ListingOf(drive, cfg, f.item.folderId);
    if ev == Expanded(f.item, f.route) {
      assert ev.route[|f.route|..] == [];
    } else if listing.Listed? {
      var kids := listing.entries;
      var files := FileEvents(kids, |kids|, f.item.path, f.route);
      var pushed := Pushed(kids, |kids|, f.item.path, f.route);
      TreeListed(drive, cfg, rank, f, kids);
      if ev in files {
        FileEventIsChild(kids, f.item.path, f.route, ev);
        FileEventSound(drive, cfg, f.item, kids, f.route, ev);
      } else {
        assert ev in Forest(drive, cfg, rank, pushed, rank(f.item.folderId));
        var k := ForestSound(drive, cfg, rank, pushed, rank(f.item.folderId), ev);
        PushedShape(kids, |kids|, f.item.path, f.route);
        LocateThrough(drive, cfg, f.item, kids, f.route, pushed[k], ev.route);
      }
    } else {
      TreeOfUnlisted(drive, cfg, rank, f);
    }
  }

  /** Soundness for a stack: each folder or file event of its walk belongs to the walk of one of its frames, `k`. */
  lemma {:induction false} ForestSound(drive: Drive, cfg: Config, rank: string -> nat, frames: seq<Frame>, bound: nat, ev: Event)
    returns (k: nat)
    requires Acyclic(drive, cfg, rank)
    requires forall f :: f in frames ==> rank(f.item.folderId) < bound
    requires ev in Forest(drive, cfg, rank, frames, bound) && Routed(ev)
    ensures k < |frames|
    ensures Extends(ev.route, frames[k].route)
    ensures Locate(drive, cfg, frames[k].item, ev.route[|frames[k].route|..]) == Some(NodeOf(ev))
    decreases bound, 0, |frames|
  {
    var n := |frames| - 1;
    ForestPop(drive, cfg, rank, frames, bound);
    if ev in Tree(drive, cfg, rank, frames[n]) {
      TreeSound(drive, cfg, rank, frames[n], ev);
      k := n;
    } else {
      k := ForestSound(drive, cfg, rank, frames[..n], bound, ev);
      assert frames[..n][k] == frames[k];
    }
  }

  /** No two folder or file events share a route. */
  ghost predicate DistinctRoutes(evs: seq<Event>) {
    forall i, j :: 0 <= i < j < |evs| && Routed(evs[i]) && Routed(evs[j]) ==> evs[i].route != evs[j].route
  }

  /** No frame's route starts with another frame's route. */
  ghost predicate Incomparable(frames: seq<Frame>) {
    forall i, j :: 0 <= i < |frames| && 0 <= j < |frames| && i != j ==> !Extends(frames[j].route, frames[i].route)
  }

  lemma DistinctConcat(a: seq<Event>, b: seq<Event>)
    requires DistinctRoutes(a) && DistinctRoutes(b)
    requires forall x, y :: x in a && y in b && Routed(x) && Routed(y) ==> x.route != y.route
    ensures DistinctRoutes(a + b)
  {
    forall i, j | 0 <= i < j < |a + b| && Routed((a + b)[i]) && Routed((a + b)[j])
      ensures (a + b)[i].route != (a + b)[j].route
    {
      if j < |a| {
        assert (a + b)[i] == a[i] && (a + b)[j] == a[j];
      } else if |a| <= i {
        assert (a + b)[i] == b[i - |a|] && (a + b)[j] == b[j - |a|];
      } else {
        assert (a + b)[i] == a[i] && (a + b)[j] == b[j - |a|];
      }
    }
  }

  /** Two prefixes of one route: one of them starts the other. */
  lemma ExtendsBoth(r: seq<nat>, p: seq<nat>, q: seq<nat>)
    requires Extends(r, p) && Extends(r, q) && |p| <= |q|
    ensures Extends(q, p)
  {
    assert q[..|p|] == r[..|q|][..|p|];
  }

  /** The file events of a folder have pairwise distinct routes. */
  lemma FilesDistinct(kids: seq<Entry>, path: Path, route: seq<nat>)
    ensures DistinctRoutes(FileEvents(kids, |kids|, path, route))
  {
    var files := FileEvents(kids, |kids|, path, route);
    FileEventsShape(kids, |kids|, path, route);
    forall i, j | 0 <= i < j < |files|
      ensures files[i].route != files[j].route
    {
      assert Branch(route, files[i].route) < Branch(route, files[j].route);
    }
  }

  /** The frames pushed for a folder's child folders are incomparable: same length, different last index. */
  lemma PushedIncomparable(kids: seq<Entry>, path: Path, route: seq<nat>)
    ensures Incomparable(Pushed(kids, |kids|, path, route))
  {
    var pushed := Pushed(kids, |kids|, path, route);
    PushedShape(kids, |kids|, path, route);
    forall i, j | 0 <= i < |pushed| && 0 <= j < |pushed| && i != j
      ensures !Extends(pushed[j].route, pushed[i].route)
    {
      if i < j {
        assert Branch(route, pushed[i].route) < Branch(route, pushed[j].route);
      } else {
        assert Branch(route, pushed[j].route) < Branch(route, pushed[i].route);
      }
    }
  }

  /**
   * The folder's own event and its file events never share a route with a route that passes
   * through one of its folder children.
   */
  lemma FilesApartFromFolders(kids: seq<Entry>, item: WorkItem, route: seq<nat>, x: Event, child: Frame, r: seq<nat>)
    requires x in [Expanded(item, route)] + FileEvents(kids, |kids|, item.path, route) && Routed(x)
    requires FolderChildFrame(kids, |kids|, item.path, route, child)
    requires Extends(r, child.route)
    ensures x.route != r
  {
    var files := FileEvents(kids, |kids|, item.path, route);
    if x in files {
      FileEventsShape(kids, |kids|, item.path, route);
      var a :| 0 <= a < |files| && files[a] == x;
      assert FileChildEvent(kids, |kids|, item.path, route, x);
    }
  }

  /** The routes of the walk from a frame are pairwise distinct. */
  lemma {:induction false} TreeDistinct(drive: Drive, cfg: Config, rank: string -> nat, f: Frame)
    requires Acyclic(drive, cfg, rank)
    ensures DistinctRoutes(Tree(drive, cfg, rank, f))
    decreases rank(f.item.folderId), 1, 0
  {
    var listing := ListingOf(drive, cfg, f.item.folderId);
    var head := [Expanded(f.item, f.route)];
    if listing.Listed? {
      var kids := listing.entries;
      var files := FileEvents(kids, |kids|, f.item.path, f.route);
      var pushed := Pushed(kids, |kids|, f.item.path, f.route);
      TreeListed(drive, cfg, rank, f, kids);
      var sub := Forest(drive, cfg, rank, pushed, rank(f.item.folderId));
      FilesDistinct(kids, f.item.path, f.route);
      FileEventsShape(kids, |kids|, f.item.path, f.route);
      DistinctConcat(head, files);
      PushedIncomparable(kids, f.item.path, f.route);
      ForestDistinct(drive, cfg, rank, pushed, rank(f.item.folderId));
      forall x, y | x in head + files && y in sub && Routed(x) && Routed(y)
        ensures x.route != y.route
      {
        var k := ForestSound(drive, cfg, rank, pushed, rank(f.item.folderId), y);
        PushedShape(kids, |kids|, f.item.path, f.route);
        FilesApartFromFolders(kids, f.item, f.route, x, pushed[k], y.route);
      }
      DistinctConcat(head + files, sub);
    } else {
      TreeOfUnlisted(drive, cfg, rank, f);
    }
  }

  /** The routes of the walk of a stack whose frames are incomparable are pairwise distinct. */
  lemma {:induction false} ForestDistinct(drive: Drive, cfg: Config, rank: string -> nat, frames: seq<Frame>, bound: nat)
    requires Acyclic(drive, cfg, rank)
    requires forall f :: f in frames ==> rank(f.item.folderId) < bound
    requires Incomparable(frames)
    ensures DistinctRoutes(Forest(drive, cfg, rank, frames, bound))
    decreases bound, 0, |frames|
  {
    if frames != [] {
      var n := |frames| - 1;
      var top := frames[n];
      var rest := frames[..n];
      ForestPop(drive, cfg, rank, frames, bound);
      TreeDistinct(drive, cfg, rank, top);
      assert Incomparable(rest) by {
        assert forall i :: 0 <= i < n ==> rest[i] == frames[i];
      }
      ForestDistinct(drive, cfg, rank, rest, bound);
      forall x, y | x in Tree(drive, cfg, rank, top) && y in Forest(drive, cfg, rank, rest, bound) && Routed(x) && Routed(y)
        ensures x.route != y.route
      {
        TreeSound(drive, cfg, rank, top, x);
        var k := ForestSound(drive, cfg, rank, rest, bound, y);
        assert rest[k] == frames[k];
        if x.route == y.route {
          if |top.route| <= |rest[k].route| {
            ExtendsBoth(x.route, top.route, rest[k].route);
          } else {
            ExtendsBoth(x.route, rest[k].route, top.route);
          }
        }
      }
      DistinctConcat(Tree(drive, cfg, rank, top), Forest(drive, cfg, rank, rest, bound));
    }
  }

  /** In a trace with distinct routes, a folder or file event occurs at most once. */
  lemma {:induction false} OccursOnce(evs: seq<Event>, e: Event)
    requires DistinctRoutes(evs) && Routed(e) && e in evs
    ensures multiset(evs)[e] == 1
    decreases |evs|
  {
    var n := |evs| - 1;
    var pre := evs[..n];
    assert evs == pre + [evs[n]];
    assert DistinctRoutes(pre) by {
      assert forall i :: 0 <= i < n ==> pre[i] == evs[i];
    }
    if evs[n] != e {
      OccursOnce(pre, e);
    }
  }

  /**
   * Every node reachable from the root folder has its event exactly once in the walk: each
   * reachable folder is popped once and each file under it evaluated once.
   */
  lemma ExactlyOnce(drive: Drive, cfg: Config, rank: string -> nat, root: WorkItem, steps: seq<nat>)
    requires Acyclic(drive, cfg, rank)
    requires Locate(drive, cfg, root, steps).Some?
    ensures multiset(Tree(drive, cfg, rank, Frame(root, [])))[EventFor(Locate(drive, cfg, root, steps).value, steps)] == 1
  {
    TreeComplete(drive, cfg, rank, root, [], steps);
    assert [] + steps == steps;
    TreeDistinct(drive, cfg, rank, Frame(root, []));
    OccursOnce(Tree(drive, cfg, rank, Frame(root, [])), EventFor(Locate(drive, cfg, root, steps).value, steps));
  }

  /** Every folder or file event of the walk from the root is the event of the node its route locates. */
  lemma OnlyReachable(drive: Drive, cfg: Config, rank: string -> nat, root: WorkItem, ev: Event)
    requires Acyclic(drive, cfg, rank)
    requires ev in Tree(drive, cfg, rank, Frame(root, [])) && Routed(ev)
    ensures Locate(drive, cfg, root, ev.route) == Some(NodeOf(ev))
    ensures ev == EventFor(NodeOf(ev), ev.route)
  {
    TreeSound(drive, cfg, rank, Frame(root, []), ev);
    assert ev.route[0..] == ev.route;
  }
}
