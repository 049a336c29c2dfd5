/** The file-change filter of the real-time monitor: each created, modified or
    moved file is either dropped by the exclusion rules or queued for a scan.
    Paths are Windows paths. */
module FileMonitor {
  import opened Common
  import opened NtPath

  /** Substrings of the lowercased path that always exclude it. */
  const IgnorePatterns: seq<string> := ["appdata", "application data", "__pycache__", "$recycle.bin", ".tmp"]

  /** Base names of the monitor's own files. */
  const IgnoreNames: seq<string> := ["aegis.db", "aegis.db-journal", "cyber_aegis.log"]

  /** A path component named `quarantine`, as it reads in a normalised,
      lowercased path. */
  const QuarantineDir: string := "\\quarantine\\"

  /** The decision of `process_event`: a non-empty path that is not a directory
      on disk, not inside a `quarantine` component of its normalised lowercased
      form, not one of the monitor's own files by base name, and whose
      lowercased form contains no ignore pattern and no excluded directory and
      ends with no excluded extension (both compared lowercased). */
  predicate Admits(path: string, isDirOnDisk: bool, directories: seq<string>, extensions: seq<string>) {
    var lower := Lower(path);
    path != []
    && !isDirOnDisk
    && !Find(Lower(NormPath(path)), QuarantineDir)
    && Basename(path) !in IgnoreNames
    && (forall k :: 0 <= k < |IgnorePatterns| ==> !Find(lower, IgnorePatterns[k]))
    && (forall k :: 0 <= k < |directories| ==> !Find(lower, Lower(directories[k])))
    && (forall k :: 0 <= k < |extensions| ==> !IsSuffix(Lower(extensions[k]), lower))
  }

  /** One item of the scan queue: `{"event_type": ..., "path": ...}`. */
  datatype ScanRequest = ScanRequest(eventType: string, path: string)

  /** A file-system notification: whether it is about a directory, its source
      path and, for a move, its destination. */
  datatype FsEvent = FsEvent(isDirectory: bool, srcPath: string, destPath: string)

  const Created: string := "作成"
  const Modified: string := "変更"
  const Moved: string := "移動/名前変更"

  /** What one notification queues: nothing for a directory event, otherwise the
      request for its path (the destination of a move) when the filter admits it. */
  function Queued(kind: string, path: string, isDirectory: bool, isDirOnDisk: bool,
                  directories: seq<string>, extensions: seq<string>): (r: seq<ScanRequest>)
    ensures |r| <= 1
    ensures r != [] <==> !isDirectory && Admits(path, isDirOnDisk, directories, extensions)
    ensures r != [] ==> r[0] == ScanRequest(kind, path)
  {
    if !isDirectory && Admits(path, isDirOnDisk, directories, extensions) then [ScanRequest(kind, path)] else []
  }

  class Handler {
    /** `exclusions['directories']`, empty when absent. */
    const directories: seq<string>
    /** `exclusions['extensions']`, empty when absent. */
    const extensions: seq<string>
    /** The watched paths, normalised. */
    const monitored: seq<string>
    /** Whether a scan worker exists: `scan_worker` stays `None` when the YARA
        scanner could not be set up, and then queuing raises `AttributeError`. */
    const hasWorker: bool
    /** What the handler has put on the scan worker's queue, oldest first. */
    var queue: seq<ScanRequest>

    constructor(hasWorker: bool, directories: seq<string>, extensions: seq<string>, paths: seq<string>)
      ensures this.hasWorker == hasWorker
      ensures this.directories == directories && this.extensions == extensions
      ensures |monitored| == |paths| && forall k :: 0 <= k < |paths| ==> monitored[k] == NormPath(paths[k])
      ensures queue == []
    {
      this.hasWorker := hasWorker;
      this.directories := directories;
      this.extensions := extensions;
      monitored := seq(|paths|, k requires 0 <= k < |paths| => NormPath(paths[k]));
      queue := [];
    }

    /** `process_event`: the rules are tried in order and the first that applies
        drops the event; an event no rule drops is queued once, or raises when
        there is no scan worker. `isDirOnDisk` is what the file system says about
        `path` at this moment. */
    method ProcessEvent(eventType: string, path: string, isDirOnDisk: bool) returns (raised: bool)
      modifies this
      ensures raised <==> Admits(path, isDirOnDisk, directories, extensions) && !hasWorker
      ensures Admits(path, isDirOnDisk, directories, extensions) && hasWorker ==>
        queue == old(queue) + [ScanRequest(eventType, path)]
      ensures !(Admits(path, isDirOnDisk, directories, extensions) && hasWorker) ==> queue == old(queue)
    {
      raised := false;
      if path == [] || isDirOnDisk {
        return;
      }
      if Find(Lower(NormPath(path)), QuarantineDir) {
        return;
      }
      if Basename(path) in IgnoreNames {
        return;
      }
      var lower := Lower(path);
      if exists k :: 0 <= k < |IgnorePatterns| && Find(lower, IgnorePatterns[k]) {
        return;
      }
      if exists k :: 0 <= k < |directories| && Find(lower, Lower(directories[k])) {
        return;
      }
      if exists k :: 0 <= k < |extensions| && IsSuffix(Lower(extensions[k]), lower) {
        return;
      }
      if !hasWorker {
        return true;
      }
      queue := queue + [ScanRequest(eventType, path)];
    }

    /** `on_created` */
    method OnCreated(e: FsEvent, isDirOnDisk: bool) returns (raised: bool)
      modifies this
      ensures raised <==> !hasWorker && Queued(Created, e.srcPath, e.isDirectory, isDirOnDisk, directories, extensions) != []
      ensures queue == old(queue) +
        (if hasWorker then Queued(Created, e.srcPath, e.isDirectory, isDirOnDisk, directories, extensions) else [])
    {
      raised := false;
      if !e.isDirectory {
        raised := ProcessEvent(Created, e.srcPath, isDirOnDisk);
      }
    }

    /** `on_modified` */
    method OnModified(e: FsEvent, isDirOnDisk: bool) returns (raised: bool)
      modifies this
      ensures raised <==> !hasWorker && Queued(Modified, e.srcPath, e.isDirectory, isDirOnDisk, directories, extensions) != []
      ensures queue == old(queue) +
        (if hasWorker then Queued(Modified, e.srcPath, e.isDirectory, isDirOnDisk, directories, extensions) else [])
    {
      raised := false;
      if !e.isDirectory {
        raised := ProcessEvent(Modified, e.srcPath, isDirOnDisk);
      }
    }

    /** `on_moved`: the file is scanned under its new name. */
    method OnMoved(e: FsEvent, isDirOnDisk: bool) returns (raised: bool)
      modifies this
      ensures raised <==> !hasWorker && Queued(Moved, e.destPath, e.isDirectory, isDirOnDisk, directories, extensions) != []
      ensures queue == old(queue) +
        (if hasWorker then Queued(Moved, e.destPath, e.isDirectory, isDirOnDisk, directories, extensions) else [])
    {
      raised := false;
      if !e.isDirectory {
        raised := ProcessEvent(Moved, e.destPath, isDirOnDisk);
      }
    }
  }

  // ---------------------------------------------------------------------------
  // Properties of the filter

  /** The base name of `dir\name` is `name`, with or without a drive. */
  lemma BasenameAfterSep(dir: string, name: string)
    requires dir != []
    requires forall j :: 0 <= j < |name| ==> !IsSep(name[j])
    ensures Basename(dir + "\\" + name) == name
  {
    var p := dir + "\\" + name;
    if |dir| >= 2 && dir[1] == ':' {
      assert Drive(p) == dir[..2];
      assert AfterDrive(p) == dir[2..] + "\\" + name;
      TailOfSepName(dir[2..], name);
    } else {
      BasenameOfJoin(dir, name);
    }
  }

  /** The monitor's own database, journal and log are never queued, in any
      directory. */
  lemma OwnFilesDropped(dir: string, k: nat, isDirOnDisk: bool, directories: seq<string>, extensions: seq<string>)
    requires dir != [] && k < |IgnoreNames|
    ensures !Admits(dir + "\\" + IgnoreNames[k], isDirOnDisk, directories, extensions)
  {
    var name := IgnoreNames[k];
    assert forall j :: 0 <= j < |name| ==> !IsSep(name[j]);
    BasenameAfterSep(dir, name);
  }

  lemma LowerSplit(a: string, b: string, c: string)
    ensures Lower(a + b + c) == Lower(a) + Lower(b) + Lower(c)
  {
    LowerAppend(a + b, c);
    LowerAppend(a, b);
  }

  /** An ignore pattern in any letter case, anywhere in the path, drops it. */
  lemma PatternDropped(a: string, q: string, b: string, k: nat, isDirOnDisk: bool,
                       directories: seq<string>, extensions: seq<string>)
    requires k < |IgnorePatterns| && Lower(q) == IgnorePatterns[k]
    ensures !Admits(a + q + b, isDirOnDisk, directories, extensions)
  {
    var p := a + q + b;
    LowerSplit(a, q, b);
    assert OccursAt(Lower(p), IgnorePatterns[k], |Lower(a)|);
  }

  /** An excluded directory, compared without regard to case, drops every path
      that contains it. */
  lemma DirectoryDropped(a: string, q: string, b: string, isDirOnDisk: bool,
                         directories: seq<string>, extensions: seq<string>, k: nat)
    requires k < |directories| && Lower(q) == Lower(directories[k])
    ensures !Admits(a + q + b, isDirOnDisk, directories, extensions)
  {
    var p := a + q + b;
    LowerSplit(a, q, b);
    assert OccursAt(Lower(p), Lower(directories[k]), |Lower(a)|);
  }

  /** A path ending with an excluded extension, in any letter case, is dropped. */
  lemma ExtensionDropped(stem: string, q: string, isDirOnDisk: bool,
                         directories: seq<string>, extensions: seq<string>, k: nat)
    requires k < |extensions| && Lower(q) == Lower(extensions[k])
    ensures !Admits(stem + q, isDirOnDisk, directories, extensions)
  {
    LowerAppend(stem, q);
    var l := Lower(stem + q);
    assert l[|l| - |Lower(q)|..] == Lower(q);
  }

  /** More exclusions never let more paths through. */
  lemma MoreExclusionsAdmitLess(path: string, isDirOnDisk: bool, d1: seq<string>, e1: seq<string>,
                                d2: seq<string>, e2: seq<string>)
    requires forall x :: x in d1 ==> x in d2
    requires forall x :: x in e1 ==> x in e2
    requires Admits(path, isDirOnDisk, d2, e2)
    ensures Admits(path, isDirOnDisk, d1, e1)
  {
    var lower := Lower(path);
    forall k | 0 <= k < |d1|
      ensures !Find(lower, Lower(d1[k]))
    {
      assert d1[k] in d2;
      var j :| 0 <= j < |d2| && d2[j] == d1[k];
    }
    forall k | 0 <= k < |e1|
      ensures !IsSuffix(Lower(e1[k]), lower)
    {
      assert e1[k] in e2;
      var j :| 0 <= j < |e2| && e2[j] == e1[k];
    }
  }
}
