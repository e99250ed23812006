/**
 * `ProcessedFilesLog` (src/processedFilesLog.js): remembers which groups
 * of images have been stitched, keyed by a digest of the group's sorted
 * paths, in a JSON file inside the watched folder. The file is read
 * lazily, on the first question or update.
 */
module ProcessedLog {
  import opened Wrappers
  import opened Text
  import opened Ordering
  import Paths

  const LogFileName: string := ".processed_groups.json"
  const KeySeparator: char := '|'

  datatype Entry = Entry(timestamp: string, images: seq<string>, output: string)

  /** What reading and parsing the log file gives: its groups, or `Unreadable` for a missing or unparsable file. */
  datatype StoredLog = Stored(groups: map<string, Entry>) | Unreadable

  /** The groups `load()` leaves behind: the file's, or none when it cannot be read. */
  function LoadedGroups(stored: StoredLog): map<string, Entry>
  {
    if stored.Stored? then stored.groups else map[]
  }

  /** The text that is digested: the paths in sorted order, joined by `|`. */
  function GroupKey(paths: seq<string>): string
  {
    Join(SortStrings(paths), KeySeparator)
  }

  /** The order in which a group's paths arrive does not change its key. */
  lemma GroupKeyPermutation(a: seq<string>, b: seq<string>)
    requires multiset(a) == multiset(b)
    ensures GroupKey(a) == GroupKey(b)
  {
    SortPermutationInvariant(a, b);
  }

  /** Sorting keeps every path, so no sorted path holds the separator when no input path does. */
  lemma SortedFree(a: seq<string>)
    requires forall i :: 0 <= i < |a| ==> KeySeparator !in a[i]
    ensures forall i :: 0 <= i < |SortStrings(a)| ==> KeySeparator !in SortStrings(a)[i]
  {
    var s := SortStrings(a);
    forall i | 0 <= i < |s| ensures KeySeparator !in s[i] {
      assert s[i] in multiset(s);
      assert s[i] in multiset(a);
      var k :| 0 <= k < |a| && a[k] == s[i];
    }
  }

  /**
   * Different groups get different keys: for non-empty groups whose paths
   * do not contain `|`, equal keys mean the same paths, counted alike.
   */
  lemma GroupKeyInjective(a: seq<string>, b: seq<string>)
    requires a != [] && b != []
    requires forall i :: 0 <= i < |a| ==> KeySeparator !in a[i]
    requires forall i :: 0 <= i < |b| ==> KeySeparator !in b[i]
    requires GroupKey(a) == GroupKey(b)
    ensures multiset(a) == multiset(b)
  {
    SortedFree(a);
    SortedFree(b);
    SplitJoin(SortStrings(a), KeySeparator);
    SplitJoin(SortStrings(b), KeySeparator);
  }

  /** Without that requirement keys collide: the one path `a|b` and the two paths `a` and `b` share a key. */
  lemma GroupKeyCollision()
    ensures GroupKey(["a|b"]) == GroupKey(["a", "b"]) && multiset(["a|b"]) != multiset(["a", "b"])
  {
    assert StrLe("a", "b");
    assert SortStrings(["b"]) == ["b"];
    assert SortStrings(["a", "b"]) == Insert("a", ["b"]) == ["a", "b"] by {
      assert ["a", "b"][1..] == ["b"];
    }
    assert Join(["a", "b"], KeySeparator) == "a|b" by { assert ["a", "b"][1..] == ["b"]; }
    assert "a|b" in multiset(["a|b"]);
  }

  class ProcessedFilesLog {
    const watchFolder: string
    const logFile: string
    /** The MD5 hex digest; a parameter of the model. */
    const digest: string -> string
    /** `null` until the file has been read. */
    var data: Option<map<string, Entry>>

    constructor(watchFolder: string, digest: string -> string)
      ensures this.watchFolder == watchFolder && this.digest == digest
      ensures logFile == Paths.Join(watchFolder, LogFileName)
      ensures data.None?
    {
      this.watchFolder := watchFolder;
      this.logFile := Paths.Join(watchFolder, LogFileName);
      this.digest := digest;
      data := None;
    }

    /** `generateGroupHash(imagePaths)`. */
    function GenerateGroupHash(paths: seq<string>): string
    {
      digest(GroupKey(paths))
    }

    /** `load()`: the groups stored in the file, or an empty log when it cannot be read. */
    method Load(stored: StoredLog)
      modifies this
      ensures data == Some(LoadedGroups(stored))
      ensures stored.Unreadable? ==> data == Some(map[])
    {
      match stored
      case Stored(groups) => data := Some(groups);
      case Unreadable => data := Some(map[]);
    }

    /** The groups after the lazy load: the ones in memory, or the file's when nothing is in memory yet. */
    function Groups(stored: StoredLog): map<string, Entry>
      reads this
    {
      if data.Some? then data.value else LoadedGroups(stored)
    }

    /** `isGroupProcessed(imagePaths)`: reads the file when nothing is in memory, then looks the group up. */
    method IsGroupProcessed(paths: seq<string>, stored: StoredLog) returns (processed: bool)
      modifies this
      ensures data == Some(old(Groups(stored)))
      ensures old(data).Some? ==> data == old(data)
      ensures processed <==> GenerateGroupHash(paths) in data.value
    {
      if data.None? {
        Load(stored);
      }
      var hash := GenerateGroupHash(paths);
      processed := hash in data.value;
    }

    /**
     * `markAsProcessed(imagePaths, outputPath)`: reads the file when nothing
     * is in memory, then records the group; every other record is kept.
     */
    method MarkAsProcessed(paths: seq<string>, output: string, timestamp: string, stored: StoredLog)
      modifies this
      ensures data == Some(old(Groups(stored))[GenerateGroupHash(paths) := Entry(timestamp, paths, output)])
    {
      if data.None? {
        Load(stored);
      }
      var hash := GenerateGroupHash(paths);
      data := Some(data.value[hash := Entry(timestamp, paths, output)]);
    }
  }

  /** Once a group is marked, the same paths in any order count as processed. */
  lemma MarkedPermutationProcessed(log: ProcessedFilesLog, groups: map<string, Entry>, a: seq<string>, b: seq<string>, e: Entry)
    requires multiset(a) == multiset(b)
    ensures log.GenerateGroupHash(b) in groups[log.GenerateGroupHash(a) := e]
  {
    GroupKeyPermutation(a, b);
  }

  /**
   * Marking a group leaves every other group as it was, as long as the
   * digest tells different keys apart (groups are non-empty and no path
   * holds `|`).
   */
  lemma MarkingLeavesOthers(log: ProcessedFilesLog, groups: map<string, Entry>, a: seq<string>, b: seq<string>, e: Entry)
    requires forall x, y :: log.digest(x) == log.digest(y) ==> x == y
    requires a != [] && b != [] && multiset(a) != multiset(b)
    requires forall i :: 0 <= i < |a| ==> KeySeparator !in a[i]
    requires forall i :: 0 <= i < |b| ==> KeySeparator !in b[i]
    ensures log.GenerateGroupHash(b) in groups[log.GenerateGroupHash(a) := e] <==> log.GenerateGroupHash(b) in groups
  {
    if GroupKey(a) == GroupKey(b) {
      GroupKeyInjective(a, b);
    }
  }
}
