/**
 * The import job of the batch configuration: a check step that looks for
 * input files, a flow that fails the job when there are none, and a
 * chunk-oriented processing step whose reader takes the first discovered
 * file, whose processor is the identity, whose writer saves every item of a
 * chunk, and whose chunk listener is the archiver.
 */
module BatchFlow {
  import opened Files
  import opened Archiver
  import opened FileNames

  /** The two data types the configuration imports. */
  datatype JobKind = Students | Teachers {
    /** The commit interval of the processing step. */
    function ChunkSize(): (n: nat)
      ensures n > 0
      ensures Students? ==> n == 2
      ensures Teachers? ==> n == 4
    {
      if Students? then 2 else 4
    }
  }

  /** What resolving a kind's pattern yields: the matched files in resolver order, or an IOException. */
  datatype Scan = Found(resources: seq<Path>) | ScanError

  /** getResources: an IOException is reported as an empty array and never escapes. */
  function GetResources(scan: Scan): (rs: seq<Path>)
    ensures rs == [] <==> (scan.ScanError? || scan.resources == [])
    ensures scan.Found? ==> rs == scan.resources
  {
    match scan
    case Found(resources) => resources
    case ScanError => []
  }

  /** The exit status a step ends with; NO_FILES is the check step's custom one. */
  datatype ExitStatus = Completed | NoFiles

  datatype RepeatStatus = Finished | Continuable

  /** The check step's tasklet: NO_FILES on an empty discovery, and it never asks to be repeated. */
  function CheckForFiles(scan: Scan): (r: (ExitStatus, RepeatStatus))
    ensures r.0 == NoFiles <==> (scan.ScanError? || scan.resources == [])
    ensures r.1 == Finished
  {
    var resources := GetResources(scan);
    if |resources| == 0 then (NoFiles, Finished) else (Completed, Finished)
  }

  /** Where the job flow goes after the check step. */
  datatype Transition = FailJob | ToProcessingStep

  /** on("NO_FILES").fail(), and on("*") the processing step. */
  function Route(status: ExitStatus): (t: Transition)
    ensures t == FailJob <==> status == NoFiles
  {
    match status
    case NoFiles => FailJob
    case _ => ToProcessingStep
  }

  /** A step's reader: the always-null one, or a multi-resource reader over the given files. */
  datatype Reader = EmptyReader | MultiResourceReader(resources: seq<Path>)

  /** The records of the given files, file after file; `contents` is the record parser. */
  function Concat<T>(resources: seq<Path>, contents: Path -> seq<T>): seq<T>
    decreases |resources|
  {
    if resources == [] then [] else contents(resources[0]) + Concat(resources[1..], contents)
  }

  /** Every record a reader delivers, in order. */
  function ReaderItems<T>(reader: Reader, contents: Path -> seq<T>): seq<T> {
    match reader
    case EmptyReader => []
    case MultiResourceReader(resources) => Concat(resources, contents)
  }

  /** The result of the read call made after `pos` records were delivered; None is Java's null. */
  function Read<T>(reader: Reader, contents: Path -> seq<T>, pos: nat): (r: Option<T>)
    ensures reader == EmptyReader ==> r == None
    ensures r.Some? <==> pos < |ReaderItems(reader, contents)|
    ensures r.Some? ==> r.value == ReaderItems(reader, contents)[pos]
  {
    var items := ReaderItems(reader, contents);
    if pos < |items| then Some(items[pos]) else None
  }

  /** The student and teacher item processors: log and pass the item on. */
  function Process<T>(item: T): (r: T)
    ensures r == item
  {
    item
  }

  /** Processing a chunk item by item hands the writer exactly the chunk that was read. */
  function ProcessChunk<T>(items: seq<T>): (out: seq<T>)
    ensures out == items
  {
    seq(|items|, i requires 0 <= i < |items| => Process(items[i]))
  }

  /** The chunks a step hands on, in order: full ones, then a last shorter (possibly empty) one. */
  function Chunks<T>(items: seq<T>, size: nat): (cs: seq<seq<T>>)
    requires size > 0
    ensures |cs| > 0
    decreases |items|
  {
    if |items| < size then [items] else [items[..size]] + Chunks(items[size..], size)
  }

  function Flatten<T>(chunks: seq<seq<T>>): seq<T>
    decreases |chunks|
  {
    if chunks == [] then [] else chunks[0] + Flatten(chunks[1..])
  }

  /** No record is lost, duplicated or reordered by chunking. */
  lemma {:induction false} ChunksFlatten<T>(items: seq<T>, size: nat)
    requires size > 0
    ensures Flatten(Chunks(items, size)) == items
    decreases |items|
  {
    if |items| >= size {
      var cs := Chunks(items, size);
      assert cs[1..] == Chunks(items[size..], size);
      ChunksFlatten(items[size..], size);
      assert items == items[..size] + items[size..];
    }
  }

  /**
   * Every chunk but the last holds exactly `size` records, the last holds
   * fewer, and so there are |items| / size full chunks followed by one of
   * |items| % size records.
   */
  lemma {:induction false} ChunksShape<T>(items: seq<T>, size: nat)
    requires size > 0
    ensures var cs := Chunks(items, size);
      && |cs| > 0
      && (forall k :: 0 <= k < |cs| - 1 ==> |cs[k]| == size)
      && |cs[|cs| - 1]| < size
      && (|cs| - 1) * size + |cs[|cs| - 1]| == |items|
    decreases |items|
  {
    var cs := Chunks(items, size);
    if |items| >= size {
      var rest := items[size..];
      ChunksShape(rest, size);
      var tail := Chunks(rest, size);
      assert cs == [items[..size]] + tail;
      assert (|tail| - 1) * size + |tail[|tail| - 1]| == |rest|;
      assert (|cs| - 1) * size == (|tail| - 1) * size + size;
      forall k | 0 <= k < |cs| - 1 ensures |cs[k]| == size {
        if k > 0 {
          assert cs[k] == tail[k - 1];
        }
      }
    }
  }

  /** The chunks from `pos` on: the one the provider reads next, then those after it. */
  lemma ChunksUnfold<T>(items: seq<T>, pos: nat, size: nat)
    requires size > 0 && pos <= |items|
    ensures var end := |items| - pos < size;
      var chunk := items[pos..if end then |items| else pos + size];
      Chunks(items[pos..], size) == [chunk] + (if end then [] else Chunks(items[pos + size..], size))
  {
    if |items| - pos >= size {
      assert Chunks(items[pos..], size) == [items[pos..][..size]] + Chunks(items[pos..][size..], size);
      assert items[pos..][..size] == items[pos..pos + size];
      assert items[pos..][size..] == items[pos + size..];
    } else {
      assert items[pos..|items|] == items[pos..];
    }
  }

  /** No chunk is longer than the commit interval. */
  lemma ChunksBounded<T>(items: seq<T>, size: nat, k: nat)
    requires size > 0 && k < |Chunks(items, size)|
    ensures |Chunks(items, size)[k]| <= size
  {
    ChunksShape(items, size);
  }

  /** A student chunk holds at most 2 records and a teacher chunk at most 4. */
  lemma StepChunksBounded<T>(items: seq<T>, kind: JobKind)
    ensures var cs := Chunks(items, kind.ChunkSize());
      forall k :: 0 <= k < |cs| ==> |cs[k]| <= kind.ChunkSize()
  {
    forall k | 0 <= k < |Chunks(items, kind.ChunkSize())| {
      ChunksBounded(items, kind.ChunkSize(), k);
    }
  }

  /**
   * The chunk provider: read until `size` records are collected or the
   * reader returns null, which marks the end of the input.
   */
  method ReadChunk<T>(reader: Reader, contents: Path -> seq<T>, pos: nat, size: nat) returns (chunk: seq<T>, end: bool)
    requires size > 0 && pos <= |ReaderItems(reader, contents)|
    ensures var items := ReaderItems(reader, contents);
      && end == (|items| - pos < size)
      && chunk == items[pos..if end then |items| else pos + size]
  {
    ghost var items := ReaderItems(reader, contents);
    chunk, end := [], false;
    var p := pos;
    while |chunk| < size && !end
      invariant pos <= p <= |items|
      invariant chunk == items[pos..p]
      invariant |chunk| <= size
      invariant end ==> p == |items| && |chunk| < size
      decreases size - |chunk|, !end
    {
      var item := Read(reader, contents, p);
      match item
      case None =>
        end := true;
      case Some(x) =>
        chunk := chunk + [x];
        p := p + 1;
    }
  }

  /** The store a writer saves into, as the sequence of saved records. */
  class Repository<T> {
    var saved: seq<T>

    constructor ()
      ensures saved == []
    {
      saved := [];
    }

    method Save(x: T)
      modifies this
      ensures saved == old(saved) + [x]
    {
      saved := saved + [x];
    }
  }

  /** The student and teacher item writers: save each item of the chunk once, in chunk order. */
  method WriteChunk<T>(repo: Repository<T>, items: seq<T>)
    modifies repo
    ensures repo.saved == old(repo.saved) + items
  {
    var i := 0;
    while i < |items|
      invariant 0 <= i <= |items|
      invariant repo.saved == old(repo.saved) + items[..i]
    {
      repo.Save(items[i]);
      assert items[..i + 1] == items[..i] + [items[i]];
      i := i + 1;
    }
    assert items[..i] == items;
  }

  /** The records the processing step reads when its reader is built from `scan`. */
  function StepItems<T>(scan: Scan, contents: Path -> seq<T>): seq<T> {
    var rs := GetResources(scan);
    if rs == [] then [] else contents(rs[0])
  }

  /** The file system after the processing step: only the first discovered file is archived, once. */
  function StepArchive(fs: FsState, scan: Scan, clock: nat -> nat): FsState {
    var rs := GetResources(scan);
    if rs == [] then fs else ArchiveStep(fs, rs[0], clock(0)).0
  }

  /**
   * The processing step moves the first discovered file into its done
   * directory when the file can be moved and its target is free.
   */
  lemma StepArchiveMovesFirst(fs: FsState, scan: Scan, clock: nat -> nat)
    requires scan.Found? && |scan.resources| > 0
    requires var src := scan.resources[0];
      && src in fs.files && src !in fs.locked && !BlockedByFile(fs, DoneDir(src))
      && (EntryExists(fs, DoneTarget(src)) ==> !EntryExists(fs, Path(DoneDir(src), CollisionName(src.name, clock(0)))))
    ensures var src := scan.resources[0];
      && src !in StepArchive(fs, scan, clock).files
      && ChooseTarget(fs, src, clock(0)) in StepArchive(fs, scan, clock).files
  {
    ArchiveMovesMovable(fs, scan.resources[0], clock(0));
  }

  /**
   * One iteration of the chunk-oriented step: beforeChunk, read a chunk,
   * process and write it when it is not empty, then afterChunk.
   */
  method RunChunk<T>(listener: FileMovingListener, reader: Reader, contents: Path -> seq<T>, pos: nat, size: nat,
                     repo: Repository<T>, fs: FileSystem, clock: nat -> nat) returns (chunk: seq<T>, end: bool)
    requires size > 0 && pos <= |ReaderItems(reader, contents)|
    modifies listener.processedResources, repo, fs
    ensures var items := ReaderItems(reader, contents);
      && end == (|items| - pos < size)
      && chunk == items[pos..if end then |items| else pos + size]
    ensures repo.saved == old(repo.saved) + chunk
    ensures fs.state == Archive(old(fs.state), old(listener.processedResources.items), clock).0
    ensures old(listener.processedResources.items) == [] ==> fs.state == old(fs.state)
    ensures listener.processedResources.items == []
  {
    listener.BeforeChunk(fs);
    chunk, end := ReadChunk(reader, contents, pos, size);
    if chunk != [] {
      var out := ProcessChunk(chunk);
      WriteChunk(repo, out);
    }
    var log := listener.AfterChunk(fs, clock);
  }

  /**
   * Appending the chunk read at `pos` keeps the chunks read so far a prefix
   * of all chunks, and the records from `pos0` on grow by that chunk.
   */
  lemma ChunksAdvance<T>(items: seq<T>, pos0: nat, pos: nat, size: nat, chunks: seq<seq<T>>, chunk: seq<T>, end: bool)
    requires size > 0 && pos0 <= pos <= |items|
    requires chunks + Chunks(items[pos..], size) == Chunks(items, size)
    requires end == (|items| - pos < size) && chunk == items[pos..if end then |items| else pos + size]
    ensures pos + |chunk| <= |items| && items[pos0..pos + |chunk|] == items[pos0..pos] + chunk
    ensures !end ==> (chunks + [chunk]) + Chunks(items[pos + |chunk|..], size) == Chunks(items, size)
    ensures end ==> chunks + [chunk] == Chunks(items, size) && pos + |chunk| == |items|
  {
    ChunksUnfold(items, pos, size);
    assert items[pos0..pos + |chunk|] == items[pos0..pos] + chunk;
  }

  /**
   * The step's repeat loop after its first chunk: chunk after chunk until
   * the reader reports the end. The list is already empty, so no
   * afterChunk moves anything.
   */
  method RunLaterChunks<T>(listener: FileMovingListener, reader: Reader, contents: Path -> seq<T>, size: nat,
                           repo: Repository<T>, fs: FileSystem, clock: nat -> nat, pos0: nat, done: seq<seq<T>>)
    returns (chunks: seq<seq<T>>)
    requires size > 0 && pos0 <= |ReaderItems(reader, contents)|
    requires done + Chunks(ReaderItems(reader, contents)[pos0..], size) == Chunks(ReaderItems(reader, contents), size)
    requires listener.processedResources.items == []
    modifies listener.processedResources, repo, fs
    ensures chunks == Chunks(ReaderItems(reader, contents), size)
    ensures repo.saved == old(repo.saved) + ReaderItems(reader, contents)[pos0..]
    ensures fs.state == old(fs.state) && listener.processedResources.items == []
  {
    ghost var items := ReaderItems(reader, contents);
    var pos, end := pos0, false;
    chunks := done;
    while !end
      invariant pos0 <= pos <= |items|
      invariant !end ==> chunks + Chunks(items[pos..], size) == Chunks(items, size)
      invariant end ==> chunks == Chunks(items, size) && pos == |items|
      invariant repo.saved == old(repo.saved) + items[pos0..pos]
      invariant listener.processedResources.items == [] && fs.state == old(fs.state)
      decreases |items| - pos, !end
    {
      var chunk;
      chunk, end := RunChunk(listener, reader, contents, pos, size, repo, fs, clock);
      ChunksAdvance(items, pos0, pos, size, chunks, chunk, end);
      chunks := chunks + [chunk];
      pos := pos + |chunk|;
    }
    assert items[pos0..pos] == items[pos0..];
  }

  /**
   * The step's repeat loop: chunk after chunk until the reader reports the
   * end. Only the first afterChunk finds anything on the list.
   */
  method RunChunks<T>(listener: FileMovingListener, reader: Reader, contents: Path -> seq<T>, size: nat,
                      repo: Repository<T>, fs: FileSystem, clock: nat -> nat) returns (chunks: seq<seq<T>>)
    requires size > 0
    modifies listener.processedResources, repo, fs
    ensures chunks == Chunks(ReaderItems(reader, contents), size)
    ensures repo.saved == old(repo.saved) + ReaderItems(reader, contents)
    ensures fs.state == Archive(old(fs.state), old(listener.processedResources.items), clock).0
    ensures listener.processedResources.items == []
  {
    ghost var items := ReaderItems(reader, contents);
    assert items[0..] == items && items[..0] == [];
    var chunk, end := RunChunk(listener, reader, contents, 0, size, repo, fs, clock);
    ChunksAdvance(items, 0, 0, size, [], chunk, end);
    if end {
      chunks := [chunk];
    } else {
      assert items == chunk + items[|chunk|..];
      chunks := RunLaterChunks(listener, reader, contents, size, repo, fs, clock, |chunk|, [chunk]);
    }
  }

  /** What the reader and the list built from `scan` amount to over a whole step. */
  lemma StepSetup<T>(scan: Scan, contents: Path -> seq<T>, fs: FsState, clock: nat -> nat)
    ensures var rs := GetResources(scan);
      && ReaderItems(if rs == [] then EmptyReader else MultiResourceReader([rs[0]]), contents) == StepItems(scan, contents)
      && Archive(fs, if rs == [] then [] else [rs[0]], clock).0 == StepArchive(fs, scan, clock)
  {
    var rs := GetResources(scan);
    if rs != [] {
      assert [rs[0]][1..] == [] && [rs[0]][..0] == [];
      assert Concat([rs[0]], contents) == contents(rs[0]) + Concat([], contents);
    }
  }

  datatype JobStatus = JobFailed | JobCompleted

  /** The configuration: the processed-resources list shared by the readers and the listeners. */
  class BatchConfig {
    const processedResources: ResourceList

    constructor ()
      ensures fresh(processedResources) && processedResources.items == []
    {
      processedResources := new ResourceList();
    }

    /**
     * studentReader / teacherReader: clear the list; with no files, the
     * always-null reader; otherwise a reader over the FIRST file alone,
     * which is also the only entry put on the list.
     */
    method BuildReader(scan: Scan) returns (reader: Reader)
      modifies processedResources
      ensures var rs := GetResources(scan);
        && reader == (if rs == [] then EmptyReader else MultiResourceReader([rs[0]]))
        && processedResources.items == (if rs == [] then [] else [rs[0]])
    {
      processedResources.Clear();
      var resources := GetResources(scan);
      if |resources| == 0 {
        reader := EmptyReader;
        return;
      }
      reader := MultiResourceReader([resources[0]]);
      processedResources.Add(resources[0]);
    }

    /**
     * The processing step: a fresh reader, then chunk after chunk: read,
     * process and write a non-empty chunk, then the listener's afterChunk,
     * until the reader reports the end. Returns the chunks in order.
     */
    method RunStep<T>(kind: JobKind, scan: Scan, contents: Path -> seq<T>, repo: Repository<T>,
                      fs: FileSystem, clock: nat -> nat) returns (chunks: seq<seq<T>>)
      modifies processedResources, repo, fs
      ensures chunks == Chunks(StepItems(scan, contents), kind.ChunkSize())
      ensures forall k :: 0 <= k < |chunks| ==> |chunks[k]| <= kind.ChunkSize()
      ensures repo.saved == old(repo.saved) + StepItems(scan, contents)
      ensures fs.state == StepArchive(old(fs.state), scan, clock)
      ensures processedResources.items == []
    {
      ghost var fs0 := fs.state;
      ghost var rs := GetResources(scan);
      var reader := BuildReader(scan);
      var listener := new FileMovingListener(processedResources);
      var size := kind.ChunkSize();
      StepSetup(scan, contents, fs0, clock);
      chunks := RunChunks(listener, reader, contents, size, repo, fs, clock);
      StepChunksBounded(StepItems(scan, contents), kind);
    }

    /**
     * The whole job: the check step (with its own scan), the flow decision,
     * and, unless there were no files, the processing step (with the
     * reader's scan).
     */
    method RunJob<T>(kind: JobKind, checkScan: Scan, readerScan: Scan, contents: Path -> seq<T>,
                     repo: Repository<T>, fs: FileSystem, clock: nat -> nat)
      returns (status: JobStatus, chunks: seq<seq<T>>)
      modifies processedResources, repo, fs
      ensures status == JobFailed <==> GetResources(checkScan) == []
      ensures status == JobFailed ==>
        chunks == [] && repo.saved == old(repo.saved) && fs.state == old(fs.state)
        && processedResources.items == old(processedResources.items)
      ensures status == JobCompleted ==>
        && chunks == Chunks(StepItems(readerScan, contents), kind.ChunkSize())
        && repo.saved == old(repo.saved) + StepItems(readerScan, contents)
        && fs.state == StepArchive(old(fs.state), readerScan, clock)
        && processedResources.items == []
    {
      var check := CheckForFiles(checkScan);
      match Route(check.0)
      case FailJob =>
        status, chunks := JobFailed, [];
      case ToProcessingStep =>
        chunks := RunStep(kind, readerScan, contents, repo, fs, clock);
        status := JobCompleted;
    }
  }
}
