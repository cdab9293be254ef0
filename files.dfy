/**
 * The part of the file system the archiver touches, as java.nio.file.Files
 * presents it: regular files, directories, existence checks,
 * createDirectories and a move without REPLACE_EXISTING.
 */
module Files {

  datatype Option<T> = None | Some(value: T)

  /** A directory, as the sequence of its path components from the root. */
  type Dir = seq<string>

  /** A path to a file: its parent directory and its file name. */
  datatype Path = Path(dir: Dir, name: string)

  /** The same path read as a directory. */
  function AsDir(p: Path): Dir {
    p.dir + [p.name]
  }

  /**
   * The state of the file system: the regular files, the directories, and
   * the files the operating system refuses to move (open elsewhere, no
   * permission, read-only medium).
   */
  datatype FsState = FsState(files: set<Path>, dirs: set<Dir>, locked: set<Path>)

  /**
   * Files.exists: a regular file or a directory is found at `p`. A file the
   * operating system refuses to move still exists.
   */
  predicate EntryExists(fs: FsState, p: Path)
    ensures EntryExists(fs, p) <==> (p in fs.files || AsDir(p) in fs.dirs)
    ensures p in fs.locked && p in fs.files ==> EntryExists(fs, p)
  {
    p in fs.files || AsDir(p) in fs.dirs
  }

  /** Every non-empty prefix of `d`: what createDirectories makes sure exists. */
  function Prefixes(d: Dir): (ps: set<Dir>)
    ensures d != [] ==> d in ps
    ensures forall p :: p in ps ==> |p| <= |d|
  {
    assert d[..|d|] == d;
    set i | 0 < i <= |d| :: d[..i]
  }

  /** Some component of `d` is occupied by a regular file, so `d` cannot become a directory. */
  predicate BlockedByFile(fs: FsState, d: Dir) {
    exists j :: 0 <= j < |d| && Path(d[..j], d[j]) in fs.files
  }

  /** Files.createDirectories: None when it throws, else the state with `d` and its parents present. */
  function AfterCreateDirectories(fs: FsState, d: Dir): (r: Option<FsState>)
    ensures r.Some? <==> !BlockedByFile(fs, d)
    ensures r.Some? ==> r.value.files == fs.files && r.value.locked == fs.locked
    ensures r.Some? && d != [] ==> d in r.value.dirs
    ensures r.Some? ==> r.value.dirs == fs.dirs + Prefixes(d)
    ensures r.Some? ==> fs.dirs <= r.value.dirs
  {
    if BlockedByFile(fs, d) then None
    else Some(fs.(dirs := fs.dirs + Prefixes(d)))
  }

  /**
   * Files.move(src, tgt) without options: None when it throws, because the
   * source is not a movable regular file, the target already exists, or the
   * target's directory is missing.
   */
  function AfterMove(fs: FsState, src: Path, tgt: Path): (r: Option<FsState>)
    ensures r.Some? <==> (src in fs.files && src !in fs.locked && !EntryExists(fs, tgt) && tgt.dir in fs.dirs)
    ensures r.Some? ==> r.value.files == fs.files - {src} + {tgt}
    ensures r.Some? ==> src !in r.value.files && tgt in r.value.files
    ensures r.Some? ==> r.value.dirs == fs.dirs && r.value.locked == fs.locked
  {
    if src in fs.files && src !in fs.locked && !EntryExists(fs, tgt) && tgt.dir in fs.dirs then
      assert src != tgt;
      Some(fs.(files := fs.files - {src} + {tgt}))
    else None
  }

  /** The file system as a mutable object, for code that changes it step by step. */
  class FileSystem {
    var state: FsState

    constructor (initial: FsState)
      ensures state == initial
    {
      state := initial;
    }

    method Exists(p: Path) returns (b: bool)
      ensures b == EntryExists(state, p)
    {
      b := p in state.files || AsDir(p) in state.dirs;
    }

    /** Returns false where Files.createDirectories throws an IOException. */
    method CreateDirectories(d: Dir) returns (ok: bool)
      modifies this
      ensures ok == AfterCreateDirectories(old(state), d).Some?
      ensures state == if ok then AfterCreateDirectories(old(state), d).value else old(state)
    {
      var r := AfterCreateDirectories(state, d);
      ok := r.Some?;
      if ok {
        state := r.value;
      }
    }

    /** Returns false where Files.move throws an IOException. */
    method Move(src: Path, tgt: Path) returns (ok: bool)
      modifies this
      ensures ok == AfterMove(old(state), src, tgt).Some?
      ensures state == if ok then AfterMove(old(state), src, tgt).value else old(state)
    {
      var r := AfterMove(state, src, tgt);
      ok := r.Some?;
      if ok {
        state := r.value;
      }
    }
  }
}
