/**
 * The chunk listener that archives processed input files: after every
 * chunk it moves each file recorded in the shared processed-resources list
 * into a "done" directory beside it, renaming on a name collision, and then
 * empties the list.
 */
module Archiver {
  import opened Files
  import opened FileNames

  /** The shared, mutable list of resources whose records the current run reads. */
  class ResourceList {
    var items: seq<Path>

    constructor ()
      ensures items == []
    {
      items := [];
    }

    method Clear()
      modifies this
      ensures items == []
    {
      items := [];
    }

    method Add(r: Path)
      modifies this
      ensures items == old(items) + [r]
    {
      items := items + [r];
    }

    /** A copy of the list, so that iterating over it is unaffected by later changes. */
    method Snapshot() returns (s: seq<Path>)
      ensures s == items
    {
      s := items;
    }
  }

  /** What happened to one listed resource (the line the listener logs for it). */
  datatype Outcome =
    | Skipped                  // the file no longer exists
    | CreateFailed             // createDirectories threw
    | Moved(target: Path)      // moved to target
    | MoveFailed(target: Path) // the move to target threw

  /** The directory a processed file is archived into. */
  function DoneDir(src: Path): (d: Dir)
    ensures |d| == |src.dir| + 1 && d[..|src.dir|] == src.dir && d[|src.dir|] == "done"
  {
    src.dir + ["done"]
  }

  /** Where a processed file goes when no file of its name is there yet. */
  function DoneTarget(src: Path): (t: Path)
    ensures t.dir == DoneDir(src) && t.name == src.name
    ensures t != src
  {
    Path(DoneDir(src), src.name)
  }

  /** The target after the collision check against `fs`, with clock reading `millis`. */
  function ChooseTarget(fs: FsState, src: Path, millis: nat): (t: Path)
    ensures t.dir == DoneDir(src)
    ensures t == DoneTarget(src) <==> !EntryExists(fs, DoneTarget(src))
    ensures t != DoneTarget(src) ==> t.name == CollisionName(src.name, millis)
  {
    if EntryExists(fs, DoneTarget(src)) then Path(DoneDir(src), CollisionName(src.name, millis))
    else DoneTarget(src)
  }

  /**
   * The archiver's treatment of one resource: the new file system and the
   * logged outcome. A resource whose file is gone is skipped; otherwise a
   * move into the done directory is tried, unless that directory cannot be
   * created.
   */
  function ArchiveStep(fs: FsState, src: Path, millis: nat): (r: (FsState, Outcome))
    ensures r.1 == Skipped <==> !EntryExists(fs, src)
    ensures (r.1.Moved? || r.1.MoveFailed?) ==> r.1.target.dir == DoneDir(src)
  {
    if !EntryExists(fs, src) then (fs, Skipped)
    else
      match AfterCreateDirectories(fs, DoneDir(src))
      case None => (fs, CreateFailed)
      case Some(fs1) =>
        var target := ChooseTarget(fs1, src, millis);
        match AfterMove(fs1, src, target)
        case None => (fs1, MoveFailed(target))
        case Some(fs2) => (fs2, Moved(target))
  }

  /**
   * The archiver over a whole list, in list order; `clock(i)` is the time
   * read while handling entry i.
   */
  function Archive(fs: FsState, xs: seq<Path>, clock: nat -> nat): (r: (FsState, seq<Outcome>))
    ensures |r.1| == |xs|
    decreases |xs|
  {
    if xs == [] then (fs, [])
    else
      var before := Archive(fs, xs[..|xs| - 1], clock);
      var step := ArchiveStep(before.0, xs[|xs| - 1], clock(|xs| - 1));
      (step.0, before.1 + [step.1])
  }

  /** Directories created for archiving never clash with a name inside them. */
  lemma DoneTargetUnaffectedByCreate(fs: FsState, src: Path, fs1: FsState)
    requires AfterCreateDirectories(fs, DoneDir(src)) == Some(fs1)
    ensures EntryExists(fs1, DoneTarget(src)) == EntryExists(fs, DoneTarget(src))
  {
    var p := AsDir(DoneTarget(src));
    assert |p| > |DoneDir(src)|;
    assert p !in Prefixes(DoneDir(src));
  }

  /**
   * Without a collision the target is done/<name> beside the source, and
   * the done directory exists once createDirectories has succeeded.
   */
  lemma ArchiveTargetWithoutCollision(fs: FsState, src: Path, millis: nat)
    requires EntryExists(fs, src) && !BlockedByFile(fs, DoneDir(src))
    requires !EntryExists(fs, DoneTarget(src))
    ensures var (fs', o) := ArchiveStep(fs, src, millis);
      (o == Moved(DoneTarget(src)) || o == MoveFailed(DoneTarget(src))) && DoneDir(src) in fs'.dirs
  {
    var fs1 := AfterCreateDirectories(fs, DoneDir(src)).value;
    DoneTargetUnaffectedByCreate(fs, src, fs1);
  }

  /**
   * On a collision the target is done/<base>_<millis><ext>; the file already
   * at done/<name> stays where it is and is not the target.
   */
  lemma ArchiveTargetOnCollision(fs: FsState, src: Path, millis: nat)
    requires EntryExists(fs, src) && !BlockedByFile(fs, DoneDir(src))
    requires EntryExists(fs, DoneTarget(src))
    ensures var (fs', o) := ArchiveStep(fs, src, millis);
      && (o.Moved? || o.MoveFailed?)
      && o.target == Path(DoneDir(src), CollisionName(src.name, millis))
      && o.target != DoneTarget(src)
      && EntryExists(fs', DoneTarget(src))
      && (DoneTarget(src) in fs.files ==> DoneTarget(src) in fs'.files)
  {
    var fs1 := AfterCreateDirectories(fs, DoneDir(src)).value;
    DoneTargetUnaffectedByCreate(fs, src, fs1);
    assert src != DoneTarget(src) by {
      assert |src.dir| != |DoneDir(src)|;
    }
  }

  /**
   * createDirectories fails exactly for a present file whose done path runs
   * through a regular file; that, like a skip, leaves the file system unchanged.
   */
  lemma ArchiveSkipsMissing(fs: FsState, src: Path, millis: nat)
    ensures var (fs', o) := ArchiveStep(fs, src, millis);
      && (o == CreateFailed <==> EntryExists(fs, src) && BlockedByFile(fs, DoneDir(src)))
      && (o == Skipped || o == CreateFailed ==> fs' == fs)
  {
  }

  /**
   * A successful move removes the source and creates the target and touches
   * no other file; a failed one, or a failed createDirectories, leaves every
   * file where it was.
   */
  lemma ArchiveMoveEffect(fs: FsState, src: Path, millis: nat)
    ensures var (fs', o) := ArchiveStep(fs, src, millis);
      && (o.Moved? ==> fs'.files == fs.files - {src} + {o.target} && src !in fs'.files && o.target in fs'.files)
      && (!o.Moved? ==> fs'.files == fs.files)
      && fs'.locked == fs.locked
      && fs.dirs <= fs'.dirs
  {
  }

  /**
   * A present file that the operating system lets go of, whose done path is
   * not blocked and whose chosen target is free, is moved there: into
   * done/<name>, or under the collision name when done/<name> is taken.
   */
  lemma ArchiveMovesMovable(fs: FsState, src: Path, millis: nat)
    requires src in fs.files && src !in fs.locked && !BlockedByFile(fs, DoneDir(src))
    requires EntryExists(fs, DoneTarget(src)) ==> !EntryExists(fs, Path(DoneDir(src), CollisionName(src.name, millis)))
    ensures ArchiveStep(fs, src, millis).1 == Moved(ChooseTarget(fs, src, millis))
    ensures var fs' := ArchiveStep(fs, src, millis).0;
      src !in fs'.files && ChooseTarget(fs, src, millis) in fs'.files
  {
    var fs1 := AfterCreateDirectories(fs, DoneDir(src)).value;
    DoneTargetUnaffectedByCreate(fs, src, fs1);
    var c := Path(DoneDir(src), CollisionName(src.name, millis));
    assert |AsDir(c)| > |DoneDir(src)|;
    assert AsDir(c) !in Prefixes(DoneDir(src));
  }

  /** The log of a prefix of the list is the prefix of the log. */
  lemma {:induction false} ArchiveLogPrefix(fs: FsState, xs: seq<Path>, clock: nat -> nat, n: nat)
    requires n <= |xs|
    ensures Archive(fs, xs[..n], clock).1 == Archive(fs, xs, clock).1[..n]
    decreases |xs|
  {
    if n == |xs| {
      assert xs[..n] == xs;
    } else {
      var init := xs[..|xs| - 1];
      ArchiveLogPrefix(fs, init, clock, n);
      assert init[..n] == xs[..n];
      var before := Archive(fs, init, clock);
      assert Archive(fs, xs, clock).1 == before.1 + [ArchiveStep(before.0, xs[|xs| - 1], clock(|xs| - 1)).1];
    }
  }

  /** Each listed resource is handled exactly once, in list order, on the state its predecessors left. */
  lemma ArchiveVisitsInOrder(fs: FsState, xs: seq<Path>, clock: nat -> nat, i: nat)
    requires i < |xs|
    ensures Archive(fs, xs, clock).1[i] == ArchiveStep(Archive(fs, xs[..i], clock).0, xs[i], clock(i)).1
    ensures Archive(fs, xs[..i + 1], clock).0 == ArchiveStep(Archive(fs, xs[..i], clock).0, xs[i], clock(i)).0
  {
    var p := xs[..i + 1];
    assert p[..i] == xs[..i] && p[i] == xs[i];
    ArchiveLogPrefix(fs, xs, clock, i + 1);
  }

  /** Archiving never removes a file that is not on the list. */
  lemma {:induction false} ArchiveKeepsUnlisted(fs: FsState, xs: seq<Path>, clock: nat -> nat, f: Path)
    requires f in fs.files && f !in xs
    ensures f in Archive(fs, xs, clock).0.files
    decreases |xs|
  {
    if xs != [] {
      var init := xs[..|xs| - 1];
      assert xs == init + [xs[|xs| - 1]];
      ArchiveKeepsUnlisted(fs, init, clock, f);
      ArchiveMoveEffect(Archive(fs, init, clock).0, xs[|xs| - 1], clock(|xs| - 1));
    }
  }

  /** Every file archiving adds lies in the done directory of some listed resource. */
  lemma {:induction false} ArchiveAddsOnlyDoneFiles(fs: FsState, xs: seq<Path>, clock: nat -> nat, f: Path)
    requires f in Archive(fs, xs, clock).0.files && f !in fs.files
    ensures exists k :: 0 <= k < |xs| && f.dir == DoneDir(xs[k])
    decreases |xs|
  {
    var init := xs[..|xs| - 1];
    var src := xs[|xs| - 1];
    var mid := Archive(fs, init, clock).0;
    ArchiveMoveEffect(mid, src, clock(|xs| - 1));
    if f in mid.files {
      ArchiveAddsOnlyDoneFiles(fs, init, clock, f);
      var k :| 0 <= k < |init| && f.dir == DoneDir(init[k]);
      assert xs[k] == init[k];
    } else {
      var o := ArchiveStep(mid, src, clock(|xs| - 1)).1;
      assert o.Moved? && f == o.target;
      assert f.dir == DoneDir(src);
    }
  }

  /**
   * The listener whose afterChunk archives the files on the shared list.
   * The list is the same object the reader builders fill.
   */
  class FileMovingListener {
    const processedResources: ResourceList

    constructor (processedResources: ResourceList)
      ensures this.processedResources == processedResources
    {
      this.processedResources := processedResources;
    }

    /** beforeChunk only logs: neither the list nor the file system changes. */
    method BeforeChunk(fs: FileSystem)
      ensures processedResources.items == old(processedResources.items) && fs.state == old(fs.state)
    {
    }

    /**
     * afterChunk: handles every resource of a snapshot of the list, in
     * order, swallowing each file's I/O failure, then clears the list.
     * `clock(i)` is System.currentTimeMillis() as read for entry i.
     */
    method AfterChunk(fs: FileSystem, clock: nat -> nat) returns (log: seq<Outcome>)
      modifies fs, processedResources
      ensures (fs.state, log) == Archive(old(fs.state), old(processedResources.items), clock)
      ensures processedResources.items == []
    {
      var snapshot := processedResources.Snapshot();
      log := [];
      var i := 0;
      while i < |snapshot|
        invariant 0 <= i <= |snapshot|
        invariant processedResources.items == snapshot
        invariant (fs.state, log) == Archive(old(fs.state), snapshot[..i], clock)
      {
        var src := snapshot[i];
        ghost var before := fs.state;
        var outcome;
        var present := fs.Exists(src);
        if !present {
          outcome := Skipped;
        } else {
          var created := fs.CreateDirectories(DoneDir(src));
          if !created {
            outcome := CreateFailed;
          } else {
            var target := DoneTarget(src);
            var clash := fs.Exists(target);
            if clash {
              target := Path(target.dir, CollisionName(src.name, clock(i)));
            }
            var moved := fs.Move(src, target);
            outcome := if moved then Moved(target) else MoveFailed(target);
          }
        }
        assert (fs.state, outcome) == ArchiveStep(before, src, clock(i));
        ArchiveVisitsInOrder(old(fs.state), snapshot, clock, i);
        assert snapshot[..i + 1][..i] == snapshot[..i];
        log := log + [outcome];
        i := i + 1;
      }
      assert snapshot[..i] == snapshot;
      processedResources.Clear();
    }

    /** afterChunkError only logs: neither the list nor the file system changes. */
    method AfterChunkError(fs: FileSystem)
      ensures processedResources.items == old(processedResources.items) && fs.state == old(fs.state)
    {
    }
  }
}
