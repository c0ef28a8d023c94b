/**
 * What the walk does to the local side: the skip-or-download decision per file, the metadata
 * log of the files actually downloaded, and the state of a run as a fold over the walk's events.
 */
module Sync {
  import opened Base
  import opened DriveApi
  import opened Walk

  /** A metadata log value: the remote id and remote checksum of a downloaded file. */
  datatype LogRecord = LogRecord(id: string, md5Checksum: Option<string>)

  /** The metadata log, keyed by the local target path. */
  type MetadataLog = map<Path, LogRecord>

  /** Why a run stopped before its stack was empty. */
  datatype Halt =
    | RemoteError(folderId: string, reason: string)
    | Unending(folderId: string)
    | TransferError(target: Path, reason: string)

  datatype SyncState = Running(local: LocalFs, log: MetadataLog) | Halted(local: LocalFs, cause: Halt)

  datatype Decision = Skip | Download

  /**
   * The change-detection rule: skip a file only if its target exists locally and the local
   * MD5 equals the remote checksum.
   */
  function Decide(md5: Bytes -> string, local: LocalFs, t: FileTask): (d: Decision)
    ensures t.target !in local ==> d == Download
    ensures t.entry.md5Checksum == None ==> d == Download
    ensures t.target in local && t.entry.md5Checksum != Some(md5(local[t.target])) ==> d == Download
    ensures t.target in local && t.entry.md5Checksum == Some(md5(local[t.target])) ==> d == Skip
  {
    if t.target in local && Some(md5(local[t.target])) == t.entry.md5Checksum then Skip else Download
  }

  /** The bytes a download leaves at the target: all of the media, or what arrived before the interruption. */
  function Written(m: Media): (b: Bytes)
    ensures m.Delivered? ==> b == m.content
    ensures m.Interrupted? ==> b == m.partial
  {
    match m
    case Delivered(b) => b
    case Interrupted(p, _) => p
  }

  /** The log value of a downloaded file: its remote id and its remote checksum (possibly absent). */
  function RecordOf(t: FileTask): (r: LogRecord)
    ensures r.id == t.entry.id && r.md5Checksum == t.entry.md5Checksum
  {
    LogRecord(t.entry.id, t.entry.md5Checksum)
  }

  /** Evaluating one file: skip, or download it to its target and log it (a failed download stops the run). */
  function Evaluate(drive: Drive, md5: Bytes -> string, local: LocalFs, log: MetadataLog, t: FileTask): (r: SyncState)
    ensures Decide(md5, local, t) == Skip ==> r == Running(local, log)
    ensures Decide(md5, local, t) == Download ==> r.local == local[t.target := Written(drive.media(t.entry.id))]
    ensures r.Running? <==> Decide(md5, local, t) == Skip || drive.media(t.entry.id).Delivered?
    ensures Decide(md5, local, t) == Download && r.Running? ==> r.log == log[t.target := RecordOf(t)]
    ensures r.Halted? ==> r.cause == TransferError(t.target, drive.media(t.entry.id).reason)
  {
    if Decide(md5, local, t) == Skip then Running(local, log)
    else match drive.media(t.entry.id)
      case Delivered(b) => Running(local[t.target := b], log[t.target := RecordOf(t)])
      case Interrupted(p, e) => Halted(local[t.target := p], TransferError(t.target, e))
  }

  /**
   * One event of the walk: a stopped run ignores it, a pop changes nothing, a listing that
   * failed or never ended stops the run, and a file is evaluated.
   */
  function Step(drive: Drive, md5: Bytes -> string, s: SyncState, ev: Event): SyncState {
    match s
    case Halted(_, _) => s
    case Running(local, log) =>
      match ev
      case Expanded(_, _) => s
      case ListingFailed(id, e) => Halted(local, RemoteError(id, e))
      case ListingUnending(id) => Halted(local, Unending(id))
      case FileSeen(t, _) => Evaluate(drive, md5, local, log, t)
  }

  /** The state after the events `evs`, starting from `s`. */
  function Apply(drive: Drive, md5: Bytes -> string, evs: seq<Event>, s: SyncState): SyncState
    decreases |evs|
  {
    if evs == [] then s
    else Step(drive, md5, Apply(drive, md5, evs[..|evs| - 1], s), evs[|evs| - 1])
  }

  /** The files downloaded while applying `evs` from `s`, in order (including one whose download was interrupted). */
  function Fetched(drive: Drive, md5: Bytes -> string, evs: seq<Event>, s: SyncState): seq<FileTask>
    decreases |evs|
  {
    if evs == [] then []
    else
      var n := |evs| - 1;
      var before := Apply(drive, md5, evs[..n], s);
      Fetched(drive, md5, evs[..n], s)
        + (if before.Running? && evs[n].FileSeen? && Decide(md5, before.local, evs[n].task) == Download
           then [evs[n].task] else [])
  }

  /** The file tasks of the events, in order. */
  function SeenTasks(evs: seq<Event>): seq<FileTask>
    decreases |evs|
  {
    if evs == [] then []
    else
      var n := |evs| - 1;
      SeenTasks(evs[..n]) + (if evs[n].FileSeen? then [evs[n].task] else [])
  }

  /**
   * The log a sequence of downloads leaves when each one sets its target's key: the keys are
   * exactly the targets, and a later download overwrites an earlier one with the same target.
   */
  function LogOf(ts: seq<FileTask>): (log: MetadataLog)
    ensures log.Keys == set t | t in ts :: t.target
    decreases |ts|
  {
    if ts == [] then map[]
    else LogOf(ts[..|ts| - 1])[ts[|ts| - 1].target := RecordOf(ts[|ts| - 1])]
  }

  /** Applying one more event is one more step. */
  lemma ApplySnoc(drive: Drive, md5: Bytes -> string, evs: seq<Event>, ev: Event, s: SyncState)
    ensures Apply(drive, md5, evs + [ev], s) == Step(drive, md5, Apply(drive, md5, evs, s), ev)
  {
    assert (evs + [ev])[..|evs|] == evs;
  }

  /** A file seen while the run is going is evaluated against the current state. */
  lemma ApplyFile(drive: Drive, md5: Bytes -> string, evs: seq<Event>, s: SyncState, t: FileTask, route: seq<nat>,
                  local: LocalFs, log: MetadataLog)
    requires Apply(drive, md5, evs, s) == Running(local, log)
    ensures Apply(drive, md5, evs + [FileSeen(t, route)], s) == Evaluate(drive, md5, local, log, t)
  {
    ApplySnoc(drive, md5, evs, FileSeen(t, route), s);
  }

  /** Applying `pre + post` is applying `pre`, then `post`. */
  lemma {:induction false} ApplyAppend(drive: Drive, md5: Bytes -> string, pre: seq<Event>, post: seq<Event>, s: SyncState)
    ensures Apply(drive, md5, pre + post, s) == Apply(drive, md5, post, Apply(drive, md5, pre, s))
    decreases |post|
  {
    if post == [] {
      assert pre + post == pre;
    } else {
      var n := |post| - 1;
      assert (pre + post)[..|pre + post| - 1] == pre + post[..n];
      ApplyAppend(drive, md5, pre, post[..n], s);
    }
  }

  /** A stopped run stays stopped: nothing after the first failure has any effect. */
  lemma {:induction false} HaltedStays(drive: Drive, md5: Bytes -> string, evs: seq<Event>, s: SyncState)
    requires s.Halted?
    ensures Apply(drive, md5, evs, s) == s
    decreases |evs|
  {
    if evs != [] {
      HaltedStays(drive, md5, evs[..|evs| - 1], s);
    }
  }

  /** Once the events `pre` have stopped the run, the events after them change nothing. */
  lemma HaltedThen(drive: Drive, md5: Bytes -> string, pre: seq<Event>, post: seq<Event>, s: SyncState)
    requires Apply(drive, md5, pre, s).Halted?
    ensures Apply(drive, md5, pre + post, s) == Apply(drive, md5, pre, s)
  {
    ApplyAppend(drive, md5, pre, post, s);
    HaltedStays(drive, md5, post, Apply(drive, md5, pre, s));
  }

  /** Once a prefix of the events has stopped the run, the whole sequence ends in that same state. */
  lemma HaltedPrefix(drive: Drive, md5: Bytes -> string, pre: seq<Event>, evs: seq<Event>, s: SyncState)
    requires pre <= evs
    requires Apply(drive, md5, pre, s).Halted?
    ensures Apply(drive, md5, evs, s) == Apply(drive, md5, pre, s)
  {
    assert evs == pre + evs[|pre|..];
    ApplyAppend(drive, md5, pre, evs[|pre|..], s);
    HaltedStays(drive, md5, evs[|pre|..], Apply(drive, md5, pre, s));
  }

  /** A run that stops at a prefix of the remaining events ends there. */
  lemma HaltedWithin(drive: Drive, md5: Bytes -> string, pre: seq<Event>, mid: seq<Event>, whole: seq<Event>,
                     post: seq<Event>, s: SyncState)
    requires mid <= whole
    requires Apply(drive, md5, pre + mid, s).Halted?
    ensures Apply(drive, md5, pre + whole + post, s) == Apply(drive, md5, pre + mid, s)
  {
    assert pre + mid <= pre + whole + post by {
      assert pre + whole + post == (pre + mid) + (whole[|mid|..] + post);
    }
    HaltedPrefix(drive, md5, pre + mid, pre + whole + post, s);
  }

  /** The metadata log of a run that has not stopped is the log it started with, overwritten by the log of the files it downloaded. */
  lemma {:induction false} LogIsFetched(drive: Drive, md5: Bytes -> string, evs: seq<Event>, local: LocalFs, log0: MetadataLog)
    requires Apply(drive, md5, evs, Running(local, log0)).Running?
    ensures Apply(drive, md5, evs, Running(local, log0)).log
         == log0 + LogOf(Fetched(drive, md5, evs, Running(local, log0)))
    decreases |evs|
  {
    var s := Running(local, log0);
    if evs == [] {
      assert log0 + map[] == log0;
    } else {
      var n := |evs| - 1;
      var before := Apply(drive, md5, evs[..n], s);
      var after := Apply(drive, md5, evs, s);
      assert after == Step(drive, md5, before, evs[n]);
      assert before.Running?;
      LogIsFetched(drive, md5, evs[..n], local, log0);
      var fetched := Fetched(drive, md5, evs[..n], s);
      if evs[n].FileSeen? && Decide(md5, before.local, evs[n].task) == Download {
        var t := evs[n].task;
        assert Fetched(drive, md5, evs, s) == fetched + [t];
        assert after.log == before.log[t.target := RecordOf(t)];
        LogSnoc(log0, fetched, t);
      } else {
        assert Fetched(drive, md5, evs, s) == fetched + [];
        StepKeepsLog(drive, md5, before, evs[n]);
        assert fetched + [] == fetched;
      }
    }
  }

  /** A listing failure right after its folder is popped stops the run, with the filesystem as it was. */
  lemma StopOnFailureEvent(drive: Drive, md5: Bytes -> string, done: seq<Event>, popped: Event, failed: Event,
                           s: SyncState, local: LocalFs, log: MetadataLog)
    requires popped.Expanded? && (failed.ListingFailed? || failed.ListingUnending?)
    requires Apply(drive, md5, done, s) == Running(local, log)
    ensures Apply(drive, md5, done + [popped, failed], s)
         == Halted(local, if failed.ListingFailed? then RemoteError(failed.folderId, failed.reason) else Unending(failed.folderId))
  {
    ApplySnoc(drive, md5, done, popped, s);
    ApplySnoc(drive, md5, done + [popped], failed, s);
    assert done + [popped, failed] == (done + [popped]) + [failed];
  }

  /** An event that downloads nothing and does not stop the run leaves the log as it was. */
  lemma StepKeepsLog(drive: Drive, md5: Bytes -> string, s: SyncState, ev: Event)
    requires s.Running? && Step(drive, md5, s, ev).Running?
    requires !(ev.FileSeen? && Decide(md5, s.local, ev.task) == Download)
    ensures Step(drive, md5, s, ev).log == s.log
  {
  }

  /** Logging one more download on top of a starting log. */
  lemma LogSnoc(log0: MetadataLog, ts: seq<FileTask>, t: FileTask)
    ensures (log0 + LogOf(ts))[t.target := RecordOf(t)] == log0 + LogOf(ts + [t])
  {
    assert (ts + [t])[..|ts|] == ts;
  }

  /**
   * Later downloads overwrite earlier ones: each key of the log holds the record of the last
   * download to that target.
   */
  lemma {:induction false} LogOfLatest(ts: seq<FileTask>, k: Path)
    requires k in LogOf(ts)
    ensures exists i :: LastWriteAt(ts, k, i) && LogOf(ts)[k] == RecordOf(ts[i])
    decreases |ts|
  {
    var n := |ts| - 1;
    var pre := ts[..n];
    LogOfLast(ts, k);
    if ts[n].target == k {
      assert LastWriteAt(ts, k, n);
    } else {
      LogOfLatest(pre, k);
      var i :| LastWriteAt(pre, k, i) && LogOf(pre)[k] == RecordOf(pre[i]);
      LastWriteExtends(ts, k, i);
    }
  }

  /** A later download to another target keeps the last download to `k` the last one. */
  lemma LastWriteExtends(ts: seq<FileTask>, k: Path, i: int)
    requires |ts| > 0 && ts[|ts| - 1].target != k
    requires LastWriteAt(ts[..|ts| - 1], k, i)
    ensures LastWriteAt(ts, k, i) && ts[i] == ts[..|ts| - 1][i]
  {
    var pre := ts[..|ts| - 1];
    forall j | i < j < |ts|
      ensures ts[j].target != k
    {
      if j < |pre| {
        assert pre[j] == ts[j];
      }
    }
  }

  /** Download `i` is the last one to the target `k`. */
  predicate LastWriteAt(ts: seq<FileTask>, k: Path, i: int) {
    0 <= i < |ts| && ts[i].target == k && forall j :: i < j < |ts| ==> ts[j].target != k
  }

  /** The last download sets its own target's key and leaves every other key as the earlier downloads set it. */
  lemma LogOfLast(ts: seq<FileTask>, k: Path)
    requires k in LogOf(ts)
    ensures |ts| > 0
    ensures ts[|ts| - 1].target == k ==> LogOf(ts)[k] == RecordOf(ts[|ts| - 1])
    ensures ts[|ts| - 1].target != k ==> k in LogOf(ts[..|ts| - 1]) && LogOf(ts)[k] == LogOf(ts[..|ts| - 1])[k]
  {
  }

  /** Every downloaded file is one of the files the events saw, and it was seen while the run was going. */
  lemma {:induction false} FetchedAreSeen(drive: Drive, md5: Bytes -> string, evs: seq<Event>, s: SyncState)
    ensures forall t :: t in Fetched(drive, md5, evs, s) ==> t in SeenTasks(evs)
    decreases |evs|
  {
    if evs != [] {
      FetchedAreSeen(drive, md5, evs[..|evs| - 1], s);
    }
  }

  /** A run that is still going has met no listing failure, and it started out going. */
  lemma {:induction false} RunningMeansNoFailures(drive: Drive, md5: Bytes -> string, evs: seq<Event>, s: SyncState)
    requires Apply(drive, md5, evs, s).Running?
    ensures s.Running?
    ensures forall i :: 0 <= i < |evs| ==> !evs[i].ListingFailed? && !evs[i].ListingUnending?
    decreases |evs|
  {
    if evs != [] {
      var n := |evs| - 1;
      RunningMeansNoFailures(drive, md5, evs[..n], s);
      assert forall i :: 0 <= i < n ==> evs[i] == evs[..n][i];
    }
  }

  /** Local files are only ever written, never removed. */
  lemma {:induction false} LocalNeverShrinks(drive: Drive, md5: Bytes -> string, evs: seq<Event>, s: SyncState)
    ensures s.local.Keys <= Apply(drive, md5, evs, s).local.Keys
    decreases |evs|
  {
    if evs != [] {
      LocalNeverShrinks(drive, md5, evs[..|evs| - 1], s);
    }
  }

  /** The service delivers, for this file, bytes whose MD5 is the remote checksum. */
  predicate Consistent(drive: Drive, md5: Bytes -> string, t: FileTask) {
    match drive.media(t.entry.id)
    case Delivered(b) => t.entry.md5Checksum == Some(md5(b))
    case Interrupted(_, _) => true
  }

  /** Every task's target is present locally with the MD5 the remote side announces. */
  predicate Mirrored(md5: Bytes -> string, local: LocalFs, ts: seq<FileTask>) {
    forall t :: t in ts ==> t.target in local && t.entry.md5Checksum == Some(md5(local[t.target]))
  }

  predicate TargetsDistinct(ts: seq<FileTask>) {
    forall i, j :: 0 <= i < j < |ts| ==> ts[i].target != ts[j].target
  }

  /**
   * A run that has not stopped leaves every file it saw mirrored, provided the service's bytes
   * match their checksums and no two files share a target.
   */
  lemma {:induction false} RunMirrors(drive: Drive, md5: Bytes -> string, evs: seq<Event>, local: LocalFs, log: MetadataLog)
    requires forall t :: t in SeenTasks(evs) ==> Consistent(drive, md5, t)
    requires TargetsDistinct(SeenTasks(evs))
    requires Apply(drive, md5, evs, Running(local, log)).Running?
    ensures Mirrored(md5, Apply(drive, md5, evs, Running(local, log)).local, SeenTasks(evs))
    decreases |evs|
  {
    if evs != [] {
      var n := |evs| - 1;
      var s := Running(local, log);
      var pre := SeenTasks(evs[..n]);
      var before := Apply(drive, md5, evs[..n], s);
      var after := Apply(drive, md5, evs, s);
      assert TargetsDistinct(pre) by {
        assert forall i :: 0 <= i < |pre| ==> pre[i] == SeenTasks(evs)[i];
      }
      RunMirrors(drive, md5, evs[..n], local, log);
      if evs[n].FileSeen? {
        var t := evs[n].task;
        assert SeenTasks(evs) == pre + [t];
        forall u | u in pre
          ensures u.target in after.local && u.entry.md5Checksum == Some(md5(after.local[u.target]))
        {
          var i :| 0 <= i < |pre| && pre[i] == u;
          assert SeenTasks(evs)[i] == u && SeenTasks(evs)[|pre|] == t;
        }
      }
    }
  }

  /** A mirrored local side makes a run without listing failures do nothing: no download, no log entry. */
  lemma {:induction false} MirroredIsIdle(drive: Drive, md5: Bytes -> string, evs: seq<Event>, local: LocalFs, log: MetadataLog)
    requires Mirrored(md5, local, SeenTasks(evs))
    requires forall i :: 0 <= i < |evs| ==> !evs[i].ListingFailed? && !evs[i].ListingUnending?
    ensures Apply(drive, md5, evs, Running(local, log)) == Running(local, log)
    ensures Fetched(drive, md5, evs, Running(local, log)) == []
    decreases |evs|
  {
    if evs != [] {
      var n := |evs| - 1;
      assert forall t :: t in SeenTasks(evs[..n]) ==> t in SeenTasks(evs);
      assert forall i :: 0 <= i < n ==> evs[..n][i] == evs[i];
      MirroredIsIdle(drive, md5, evs[..n], local, log);
    }
  }
}
