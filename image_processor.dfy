/**
 * `ImageProcessor` (src/imageProcessor.js): groups of image paths wait in
 * a first-in first-out queue and are stitched one at a time. A stitch
 * sorts its group in place by file name, lays 2 to 6 images out on a
 * grid, writes the result next to the images (or into the chosen output
 * folder) and records the group in the processed log.
 */
module ImageProcessing {
  import opened Wrappers
  import opened Text
  import opened Ordering
  import Paths
  import Layout
  import OutputName
  import ProcessedLog

  // ------------------------------------------------------------ name order

  /** What the group is sorted by: the lower-cased file name. */
  function SortKey(p: string): string
  {
    ToLower(Paths.Basename(p))
  }

  predicate KeyLe(a: string, b: string)
  {
    StrLe(SortKey(a), SortKey(b))
  }

  predicate SortedByName(s: seq<string>)
  {
    forall i, j :: 0 <= i < j < |s| ==> KeyLe(s[i], s[j])
  }

  lemma KeyLeTotal(a: string, b: string)
    ensures KeyLe(a, b) || KeyLe(b, a)
  {
    StrLeTotal(SortKey(a), SortKey(b));
  }

  lemma KeyLeTransitive(a: string, b: string, c: string)
    requires KeyLe(a, b) && KeyLe(b, c)
    ensures KeyLe(a, c)
  {
    StrLeTransitive(SortKey(a), SortKey(b), SortKey(c));
  }

  /** `le` is a total preorder: any two elements compare, and comparisons chain. */
  ghost predicate TotalPreorder<T(!new)>(le: (T, T) -> bool)
  {
    && (forall x, y :: le(x, y) || le(y, x))
    && (forall x, y, z :: le(x, y) && le(y, z) ==> le(x, z))
  }

  /** The first `n` elements are in `le` order. */
  predicate SortedPrefix<T>(s: seq<T>, n: int, le: (T, T) -> bool)
    requires n <= |s|
  {
    forall x, y :: 0 <= x < y < n ==> le(s[x], s[y])
  }

  /** Moves `a[i]` left into the ordered `a[..i]`, as one pass of an insertion sort. */
  method InsertLast<T(!new)>(a: array<T>, i: nat, le: (T, T) -> bool)
    requires TotalPreorder(le)
    requires i < a.Length && SortedPrefix(a[..], i, le)
    modifies a
    ensures SortedPrefix(a[..], i + 1, le)
    ensures multiset(a[..]) == multiset(old(a[..]))
    ensures a[i + 1..] == old(a[i + 1..])
  {
    var j := i;
    while j > 0 && !le(a[j - 1], a[j])
      invariant 0 <= j <= i
      invariant multiset(a[..]) == multiset(old(a[..]))
      invariant a[i + 1..] == old(a[i + 1..])
      invariant forall x, y :: 0 <= x < y <= i && x != j && y != j ==> le(a[x], a[y])
      invariant forall y :: j < y <= i ==> le(a[j], a[y])
    {
      a[j - 1], a[j] := a[j], a[j - 1];
      j := j - 1;
    }
  }

  /** An insertion sort by `le`, in place. */
  method InsertionSort<T(!new)>(a: array<T>, le: (T, T) -> bool)
    requires TotalPreorder(le)
    modifies a
    ensures SortedPrefix(a[..], a.Length, le)
    ensures multiset(a[..]) == multiset(old(a[..]))
  {
    var i := 0;
    while i < a.Length
      invariant 0 <= i <= a.Length
      invariant SortedPrefix(a[..], i, le)
      invariant multiset(a[..]) == multiset(old(a[..]))
    {
      InsertLast(a, i, le);
      i := i + 1;
    }
  }

  lemma KeyLeTotalPreorder()
    ensures TotalPreorder((x: string, y: string) => KeyLe(x, y))
  {
    forall x, y ensures KeyLe(x, y) || KeyLe(y, x) {
      KeyLeTotal(x, y);
    }
    forall x, y, z | KeyLe(x, y) && KeyLe(y, z) ensures KeyLe(x, z) {
      KeyLeTransitive(x, y, z);
    }
  }

  /** `imagePaths.sort(...)` by lower-cased file name, in place. */
  method SortByName(a: array<string>)
    modifies a
    ensures SortedByName(a[..])
    ensures multiset(a[..]) == multiset(old(a[..]))
  {
    KeyLeTotalPreorder();
    InsertionSort(a, (x: string, y: string) => KeyLe(x, y));
  }

  // -------------------------------------------------------------- stitching

  /** What the image library and the file system answer during one stitch. */
  datatype StitchIo = StitchIo(
    /** The size `sharp(path).metadata()` reports, or `None` when the image cannot be read. */
    metadata: string -> Option<Layout.Size>,
    /** Creating the output folder and writing the JPEG to this path both succeed. */
    written: string -> bool,
    /** `new Date().toISOString()` when the group is marked. */
    timestamp: string,
    /** The log file, should the processed log still have to read it. */
    storedLog: ProcessedLog.StoredLog)

  datatype StitchOutcome =
    | Skipped                                          // not 2 to 6 images: a warning, nothing else
    | Stitched(outputPath: string, canvas: Layout.Canvas)
    | StitchFailed                                     // an image, the folder or the write failed

  const ProcessedFolder: string := "Processed"
  const OutputExtension: string := ".jpg"

  /** The chosen output folder, or a `Processed` folder beside the first image. */
  function OutputDir(outputFolder: Option<string>, first: string): string
  {
    if outputFolder.Some? && outputFolder.value != [] then outputFolder.value
    else Paths.Join(Paths.Dirname(first), ProcessedFolder)
  }

  function OutputPath(outputFolder: Option<string>, paths: seq<string>): string
  {
    var dir := if paths == [] then "" else OutputDir(outputFolder, paths[0]);
    Paths.Join(dir, OutputName.GenerateOutputFilename(paths) + OutputExtension)
  }

  predicate Readable(paths: seq<string>, io: StitchIo)
  {
    forall i :: 0 <= i < |paths| ==> io.metadata(paths[i]).Some?
  }

  function Sizes(paths: seq<string>, io: StitchIo): (sizes: seq<Layout.Size>)
    requires Readable(paths, io)
    ensures |sizes| == |paths|
  {
    seq(|paths|, i requires 0 <= i < |paths| => io.metadata(paths[i]).value)
  }

  /** `stitchImages` after its synchronous start, for an already sorted group. */
  function Stitch(paths: seq<string>, outputFolder: Option<string>, io: StitchIo): (outcome: StitchOutcome)
    ensures outcome.Skipped? <==> !(2 <= |paths| <= 6)
    ensures outcome.Stitched? <==> 2 <= |paths| <= 6 && Readable(paths, io) && io.written(OutputPath(outputFolder, paths))
    ensures outcome.Stitched? ==> outcome.outputPath == OutputPath(outputFolder, paths)
  {
    if |paths| < 2 || |paths| > 6 then Skipped
    else if !Readable(paths, io) then StitchFailed
    else
      var canvas := Layout.CreateStitchedImage(Sizes(paths, io), Layout.GetGridLayout(|paths|).value);
      var outputPath := OutputPath(outputFolder, paths);
      if io.written(outputPath) then Stitched(outputPath, canvas) else StitchFailed
  }

  /**
   * A stitched group's images all lie inside the canvas without overlapping,
   * on black for an odd count and white for an even one.
   */
  lemma StitchedCanvas(paths: seq<string>, outputFolder: Option<string>, io: StitchIo, i: nat, j: nat)
    requires Stitch(paths, outputFolder, io).Stitched?
    requires i < j < |paths|
    ensures var c, sizes := Stitch(paths, outputFolder, io).canvas, Sizes(paths, io);
      && |c.placements| == |paths|
      && c.background == (if |paths| % 2 == 1 then Layout.Black else Layout.White)
      && c.placements[i].left + sizes[i].width <= c.width && c.placements[i].top + sizes[i].height <= c.height
      && c.placements[j].left + sizes[j].width <= c.width && c.placements[j].top + sizes[j].height <= c.height
      && (|| c.placements[i].left + sizes[i].width <= c.placements[j].left
          || c.placements[j].left + sizes[j].width <= c.placements[i].left
          || c.placements[i].top + sizes[i].height <= c.placements[j].top
          || c.placements[j].top + sizes[j].height <= c.placements[i].top)
  {
    var sizes := Sizes(paths, io);
    var layout := Layout.GetGridLayout(|paths|).value;
    Layout.ImagesInsideCanvas(sizes, layout, i);
    Layout.ImagesInsideCanvas(sizes, layout, j);
    Layout.ImagesDisjoint(sizes, layout, i, j);
  }

  lemma JoinedImageParts(dir: string, name: string)
    requires name != [] && '/' !in name
    ensures var p := Paths.Join(dir, name + OutputExtension);
      && Paths.Basename(p) == name + OutputExtension
      && Paths.Extname(p) == OutputExtension
      && Paths.Stem(p) == name
      && (dir != [] && dir[|dir| - 1] != '/' ==> Paths.Dirname(p) == dir)
  {
    var file := name + OutputExtension;
    assert '/' !in file by {
      forall k | 0 <= k < |file| ensures file[k] != '/' {
        if k < |name| { assert file[k] == name[k]; } else { assert file[k] == OutputExtension[k - |name|]; }
      }
    }
    Paths.StemOfFileName(dir, name, OutputExtension);
    Paths.BasenameOfJoin(dir, file);
    if dir != [] && dir[|dir| - 1] != '/' {
      Paths.DirnameOfJoin(dir, file);
    }
  }

  /** The output file is the group's name plus `.jpg`, inside the output folder. */
  lemma OutputPathParts(outputFolder: Option<string>, paths: seq<string>)
    requires paths != []
    ensures var p, name := OutputPath(outputFolder, paths), OutputName.GenerateOutputFilename(paths);
      && Paths.Basename(p) == name + OutputExtension
      && Paths.Extname(p) == OutputExtension
      && Paths.Stem(p) == name
    ensures var dir := OutputDir(outputFolder, paths[0]);
      dir != [] && dir[|dir| - 1] != '/' ==> Paths.Dirname(OutputPath(outputFolder, paths)) == dir
  {
    OutputName.OutputNameIsFileName(paths);
    JoinedImageParts(OutputDir(outputFolder, paths[0]), OutputName.GenerateOutputFilename(paths));
  }

  // ------------------------------------------------------------ the queue

  /**
   * What the synchronous start of `stitchImages` leaves in a group: for 2
   * to 6 images the same paths in name order, otherwise the group as it was.
   */
  ghost predicate Begun(after: seq<string>, before: seq<string>)
  {
    if 2 <= |before| <= 6 then SortedByName(after) && multiset(after) == multiset(before)
    else after == before
  }

  class ImageProcessor {
    var queue: seq<array<string>>
    var processing: bool
    /** The group whose stitch has begun and not yet settled. */
    var current: Option<array<string>>
    var outputFolder: Option<string>
    var watchFolder: Option<string>
    var processedLog: ProcessedLog.ProcessedFilesLog?
    /** The MD5 hex digest handed to every processed log. */
    const digest: string -> string
    /** Every group ever queued, and the groups taken off the queue, in order. */
    ghost var added: seq<array<string>>
    ghost var taken: seq<array<string>>

    /**
     * Groups leave the queue in the order they joined it, none is lost, and
     * the processor is busy exactly while a stitch is under way, which is
     * never the case while groups wait.
     */
    ghost predicate Valid()
      reads this
    {
      && taken + queue == added
      && (processing <==> current.Some?)
      && (!processing ==> queue == [])
      && (current.Some? ==> taken != [] && current.value == taken[|taken| - 1])
    }

    constructor(outputFolder: Option<string>, watchFolder: Option<string>, digest: string -> string)
      ensures Valid() && queue == [] && !processing && added == []
      ensures this.outputFolder == outputFolder && this.watchFolder == watchFolder && this.digest == digest
      ensures watchFolder.Some? && watchFolder.value != [] ==>
        && processedLog != null && fresh(processedLog)
        && processedLog.watchFolder == watchFolder.value && processedLog.digest == digest && processedLog.data.None?
      ensures !(watchFolder.Some? && watchFolder.value != []) ==> processedLog == null
    {
      queue := [];
      processing := false;
      current := None;
      this.outputFolder := outputFolder;
      this.watchFolder := watchFolder;
      this.digest := digest;
      added, taken := [], [];
      if watchFolder.Some? && watchFolder.value != [] {
        processedLog := new ProcessedLog.ProcessedFilesLog(watchFolder.value, digest);
      } else {
        processedLog := null;
      }
    }

    method SetOutputFolder(folder: Option<string>)
      modifies this
      ensures outputFolder == folder
      ensures queue == old(queue) && processing == old(processing) && current == old(current)
      ensures watchFolder == old(watchFolder) && processedLog == old(processedLog)
      ensures added == old(added) && taken == old(taken)
    {
      outputFolder := folder;
    }

    /** A new watched folder brings a new processed log, read afresh from that folder. */
    method SetWatchFolder(folder: string)
      modifies this
      ensures watchFolder == Some(folder)
      ensures processedLog != null && fresh(processedLog)
      ensures processedLog.watchFolder == folder && processedLog.digest == digest && processedLog.data.None?
      ensures queue == old(queue) && processing == old(processing) && current == old(current)
      ensures outputFolder == old(outputFolder) && added == old(added) && taken == old(taken)
    {
      watchFolder := Some(folder);
      processedLog := new ProcessedLog.ProcessedFilesLog(folder, digest);
    }

    /** `isGroupProcessed(imagePaths)`: never, without a processed log. */
    method IsGroupProcessed(paths: seq<string>, stored: ProcessedLog.StoredLog) returns (processed: bool)
      modifies processedLog
      ensures processedLog == null ==> !processed
      ensures processedLog != null ==>
        && processedLog.data == Some(old(processedLog.Groups(stored)))
        && (processed <==> processedLog.GenerateGroupHash(paths) in processedLog.data.value)
    {
      if processedLog == null {
        processed := false;
      } else {
        processed := processedLog.IsGroupProcessed(paths, stored);
      }
    }

    /**
     * `processQueue()` up to its first `await`: takes the next group and
     * starts stitching it (checking its size and sorting it), or goes idle
     * when no group waits.
     */
    method ProcessQueue()
      requires taken + queue == added
      modifies this, if queue == [] then {} else {queue[0]}
      ensures Valid()
      ensures added == old(added)
      ensures old(queue) == [] ==> !processing && taken == old(taken)
      ensures old(queue) != [] ==>
        && current == Some(old(queue[0])) && queue == old(queue[1..]) && taken == old(taken) + [old(queue[0])]
        && Begun(old(queue[0])[..], old(queue[0][..]))
      ensures outputFolder == old(outputFolder) && watchFolder == old(watchFolder) && processedLog == old(processedLog)
    {
      if queue == [] {
        processing := false;
        current := None;
        return;
      }
      processing := true;
      var images := queue[0];
      queue := queue[1..];
      taken := taken + [images];
      current := Some(images);
      if 2 <= images.Length <= 6 {
        SortByName(images);
      }
    }

    /** `addToQueue(images)`: queues the group and, when idle, starts on it at once. */
    method AddToQueue(images: array<string>)
      requires Valid()
      modifies this, images
      ensures Valid() && added == old(added) + [images]
      ensures old(processing) ==> queue == old(queue) + [images] && current == old(current) && images[..] == old(images[..])
      ensures !old(processing) ==> queue == [] && current == Some(images) && Begun(images[..], old(images[..]))
      ensures outputFolder == old(outputFolder) && watchFolder == old(watchFolder) && processedLog == old(processedLog)
    {
      queue := queue + [images];
      added := added + [images];
      if !processing {
        ProcessQueue();
      }
    }

    /**
     * The rest of the current stitch once its images have been read, and
     * then `processQueue()` again: the outcome of `Stitch`, a record in the
     * processed log for a stitched group, and the next group started.
     */
    method CompleteStitch(io: StitchIo) returns (outcome: StitchOutcome)
      requires Valid() && current.Some?
      modifies this, processedLog, if queue == [] then {} else {queue[0]}
      ensures Valid() && added == old(added)
      ensures outputFolder == old(outputFolder) && watchFolder == old(watchFolder) && processedLog == old(processedLog)
      ensures outcome == Stitch(old(current.value[..]), old(outputFolder), io)
      ensures processedLog != null && outcome.Stitched? ==>
        processedLog.data == Some(old(processedLog.Groups(io.storedLog))[
          processedLog.GenerateGroupHash(old(current.value[..])) := ProcessedLog.Entry(io.timestamp, old(current.value[..]), outcome.outputPath)])
      ensures processedLog != null && !outcome.Stitched? ==> processedLog.data == old(processedLog.data)
      ensures old(queue) == [] ==> !processing && taken == old(taken)
      ensures old(queue) != [] ==>
        && current == Some(old(queue[0])) && queue == old(queue[1..]) && taken == old(taken) + [old(queue[0])]
        && Begun(old(queue[0])[..], old(queue[0][..]))
    {
      var images := current.value[..];
      outcome := Stitch(images, outputFolder, io);
      assert outcome == Stitch(old(current.value[..]), old(outputFolder), io);
      if outcome.Stitched? && processedLog != null {
        processedLog.MarkAsProcessed(images, outcome.outputPath, io.timestamp, io.storedLog);
      }
      ProcessQueue();
    }
  }
}
