/**
 * `detectVideoDevices` (src/main.js): find an ffmpeg whose AVFoundation
 * device listing can be read, then pick the video devices out of the
 * listing's standard error, line by line, with the regular expression
 * `\[AVFoundation indev.*?\]\s+\[(\d+)\]\s+(.+)$`.
 */
module DeviceList {
  import opened Wrappers
  import opened Text
  import opened Fallback

  /** The ffmpeg executables tried, in order (`getFFmpegPaths`). */
  const FfmpegPaths: seq<string> := ["ffmpeg", "/usr/local/bin/ffmpeg", "/opt/homebrew/bin/ffmpeg", "/usr/bin/ffmpeg"]

  const VideoHeader: string := "AVFoundation video devices:"
  const AudioHeader: string := "AVFoundation audio devices:"
  const IndevTag: string := "[AVFoundation indev"

  /** One entry of the device list sent to the window; `error` is absent (false) on real devices. */
  datatype Device = Device(index: int, name: string, isBlackmagic: bool, error: bool)

  const FfmpegMissing: Device := Device(-1, "FFmpeg not installed - Run: brew install ffmpeg", false, true)
  const NoVideoDevices: Device := Device(-1, "No video devices detected - Connect UltraStudio and check drivers", false, true)

  // ------------------------------------------------- the device-line pattern

  /** No line terminator (what `.` refuses) in `line[from..to]`. */
  predicate NoTerminator(line: string, from: int, to: int)
  {
    forall i :: from <= i < to && 0 <= i < |line| ==> !IsLineTerminator(line[i])
  }

  /** `(.+)$` matches from `k`: at least one character, none a line terminator, up to the end. */
  predicate DotsToEnd(line: string, k: int)
  {
    0 <= k < |line| && NoTerminator(line, k, |line|)
  }

  /** Where the groups of a match lie: `(\d+)` is `line[indexStart..indexEnd]`, `(.+)` is `line[nameStart..]`. */
  datatype Groups = Groups(indexStart: nat, indexEnd: nat, nameStart: nat)

  /** A match of `\s+\[(\d+)\]\s+(.+)$` starting at `at`, with groups `g`. */
  ghost predicate TailMatch(line: string, at: nat, g: Groups)
  {
    && at + 2 <= g.indexStart < g.indexEnd < |line|
    && (forall i :: at <= i < g.indexStart - 1 ==> IsSpace(line[i]))
    && line[g.indexStart - 1] == '['
    && (forall i :: g.indexStart <= i < g.indexEnd ==> IsDigit(line[i]))
    && line[g.indexEnd] == ']'
    && g.indexEnd + 2 <= g.nameStart < |line|
    && (forall i :: g.indexEnd + 1 <= i < g.nameStart ==> IsSpace(line[i]))
    && DotsToEnd(line, g.nameStart)
  }

  /** A match of the whole pattern: the tag at `start`, `.*?` up to the `]` at `bracket`, then the tail. */
  ghost predicate RegexMatch(line: string, start: nat, bracket: nat, g: Groups)
  {
    && OccursAt(line, IndevTag, start)
    && start + |IndevTag| <= bracket < |line|
    && NoTerminator(line, start + |IndevTag|, bracket)
    && line[bracket] == ']'
    && TailMatch(line, bracket + 1, g)
  }

  /** The greedy `\s+` before `(.+)$` giving back characters: the widest of `w, w-1, .., 1` after which `(.+)$` matches. */
  function NameStart(line: string, at: nat, w: nat): (r: Option<nat>)
    requires at + w <= |line|
    ensures r.Some? ==> at < r.value <= at + w && DotsToEnd(line, r.value)
    ensures r.Some? ==> forall k :: r.value < k <= at + w ==> !DotsToEnd(line, k)
    ensures r.None? ==> forall k :: at < k <= at + w ==> !DotsToEnd(line, k)
  {
    if w == 0 then None
    else if DotsToEnd(line, at + w) then Some(at + w)
    else NameStart(line, at, w - 1)
  }

  /** Of all the matches of the tail from `at`, `g` has the same digits and the widest white space before the name. */
  ghost predicate Greediest(line: string, at: nat, g: Groups)
  {
    forall h :: TailMatch(line, at, h) ==>
      h.indexStart == g.indexStart && h.indexEnd == g.indexEnd && h.nameStart <= g.nameStart
  }

  /** The tail matches nowhere from `at`. */
  ghost predicate NoTail(line: string, at: nat)
  {
    forall h :: !TailMatch(line, at, h)
  }

  /**
   * `\s+\[(\d+)\]\s+(.+)$` from `at`. The first `\s+` and `\d+` are
   * followed by a character they cannot take, so only their longest runs
   * can succeed; the second `\s+` backtracks through `NameStart`.
   */
  function AfterBracket(line: string, at: nat): (r: Option<Groups>)
    requires at <= |line|
    ensures r.Some? ==> TailMatch(line, at, r.value) && Greediest(line, at, r.value)
    ensures r.None? ==> NoTail(line, at)
  {
    var w := SpanSpaces(line, at);
    var open := at + w;
    if w == 0 || open == |line| || line[open] != '[' then None
    else
      var d := SpanDigits(line, open + 1);
      var close := open + 1 + d;
      if d == 0 || close == |line| || line[close] != ']' then None
      else
        match NameStart(line, close + 1, SpanSpaces(line, close + 1))
        case None => None
        case Some(n) => Some(Groups(open + 1, close, n))
  }

  /** `]` at `b` is the first one from `from`, with no line terminator before it, after which the tail matches (with groups `g`). */
  ghost predicate FirstBracket(line: string, from: nat, b: nat, g: Groups)
  {
    && from <= b < |line| && NoTerminator(line, from, b) && line[b] == ']'
    && TailMatch(line, b + 1, g) && Greediest(line, b + 1, g)
    && forall c :: from <= c < b && line[c] == ']' ==> NoTail(line, c + 1)
  }

  /** No `]` reachable from `from` without crossing a line terminator is followed by a match of the tail. */
  ghost predicate NoBracket(line: string, from: nat)
  {
    forall c :: from <= c < |line| && NoTerminator(line, from, c) && line[c] == ']' ==> NoTail(line, c + 1)
  }

  /**
   * The lazy `.*?\]` followed by the tail, with `j` the next place the `]`
   * is tried: the first `]` after which the tail matches, as long as no
   * line terminator comes first.
   */
  function LazyBracket(line: string, j: nat): (r: Option<(nat, Groups)>)
    requires j <= |line|
    ensures r.Some? ==> FirstBracket(line, j, r.value.0, r.value.1)
    ensures r.None? ==> NoBracket(line, j)
    decreases |line| - j
  {
    if j == |line| then None
    else
      var tail := AfterBracket(line, j + 1);
      if line[j] == ']' && tail.Some? then Some((j, tail.value))
      else if IsLineTerminator(line[j]) then None
      else LazyBracket(line, j + 1)
  }

  /** The place and the groups of a match. */
  datatype Match = Match(start: nat, bracket: nat, groups: Groups)

  /** The search for a match, trying the start positions from `p` on. */
  function SearchFrom(line: string, p: nat): (r: Option<Match>)
    requires p <= |line|
    ensures r.Some? ==> p <= r.value.start && OccursAt(line, IndevTag, r.value.start)
    ensures r.Some? ==> FirstBracket(line, r.value.start + |IndevTag|, r.value.bracket, r.value.groups)
    ensures r.Some? ==> forall s :: p <= s < r.value.start && OccursAt(line, IndevTag, s) ==> NoBracket(line, s + |IndevTag|)
    ensures r.None? ==> forall s :: p <= s && OccursAt(line, IndevTag, s) ==> NoBracket(line, s + |IndevTag|)
    decreases |line| - p
  {
    if p + |IndevTag| > |line| then None
    else if OccursAt(line, IndevTag, p) && LazyBracket(line, p + |IndevTag|).Some? then
      var b := LazyBracket(line, p + |IndevTag|).value;
      Some(Match(p, b.0, b.1))
    else SearchFrom(line, p + 1)
  }

  /** `line.match(...)`: the match the regular expression engine reports, if any. */
  function MatchDeviceLine(line: string): (r: Option<Match>)
    ensures r.Some? ==> RegexMatch(line, r.value.start, r.value.bracket, r.value.groups)
  {
    SearchFrom(line, 0)
  }

  /**
   * The match reported is the engine's: it exists whenever any match
   * exists, it starts leftmost, its `]` is the first that works from there
   * (`.*?` is lazy), and its second `\s+` is the longest (greedy).
   */
  lemma MatchDeviceLineComplete(line: string, start: nat, bracket: nat, g: Groups)
    requires RegexMatch(line, start, bracket, g)
    ensures MatchDeviceLine(line).Some?
    ensures var m := MatchDeviceLine(line).value;
      || m.start < start
      || (m.start == start && m.bracket < bracket)
      || (m.start == start && m.bracket == bracket
          && m.groups.indexStart == g.indexStart && m.groups.indexEnd == g.indexEnd
          && g.nameStart <= m.groups.nameStart)
  {
    assert !NoBracket(line, start + |IndevTag|) by {
      assert !NoTail(line, bracket + 1);
    }
  }

  // --------------------------------------------------------- from line to device

  /** The device a matching line describes: `parseInt` of the index group, the trimmed name group. */
  function LineDevice(line: string): (r: Option<Device>)
    ensures r.Some? <==> MatchDeviceLine(line).Some?
    ensures r.Some? ==> var g := MatchDeviceLine(line).value.groups;
      && AllDigits(line[g.indexStart..g.indexEnd])
      && r.value.index == DecimalValue(line[g.indexStart..g.indexEnd]) && r.value.index >= 0
      && r.value.name == Trim(line[g.nameStart..])
      && (r.value.isBlackmagic <==> Contains(ToLower(r.value.name), "blackmagic"))
      && !r.value.error
  {
    match MatchDeviceLine(line)
    case None => None
    case Some(m) =>
      var digits := line[m.groups.indexStart..m.groups.indexEnd];
      assert AllDigits(digits);
      var name := Trim(line[m.groups.nameStart..]);
      Some(Device(DecimalValue(digits), name, Contains(ToLower(name), "blackmagic"), false))
  }

  /** What a line of the listing is to the loop, in the order the loop tests it. */
  datatype LineKind = VideoHeaderLine | AudioHeaderLine | DeviceLine(device: Device) | OtherLine

  function Classify(line: string): (k: LineKind)
    ensures k.DeviceLine? ==> k.device.index >= 0 && !k.device.error
  {
    if Contains(line, VideoHeader) then VideoHeaderLine
    else if Contains(line, AudioHeader) then AudioHeaderLine
    else
      match LineDevice(line)
      case Some(d) => DeviceLine(d)
      case None => OtherLine
  }

  function ClassifyLines(lines: seq<string>): (kinds: seq<LineKind>)
    ensures |kinds| == |lines|
    ensures forall i :: 0 <= i < |lines| ==> kinds[i] == Classify(lines[i])
  {
    seq(|lines|, i requires 0 <= i < |lines| => Classify(lines[i]))
  }

  /**
   * The devices the loop collects, `inVideo` being whether it has passed
   * the video header: the video header switches the section on, the audio
   * header ends the loop, device lines count inside the section only.
   */
  function Scan(kinds: seq<LineKind>, inVideo: bool): seq<Device>
  {
    if kinds == [] then []
    else
      match kinds[0]
      case VideoHeaderLine => Scan(kinds[1..], true)
      case AudioHeaderLine => []
      case DeviceLine(d) => (if inVideo then [d] else []) + Scan(kinds[1..], inVideo)
      case OtherLine => Scan(kinds[1..], inVideo)
  }

  /** The devices read from a listing's standard error (`listStderr || ''`). */
  function ListedDevices(stderr: string): seq<Device>
  {
    if Contains(stderr, VideoHeader) then Scan(ClassifyLines(Split(stderr, '\n')), false) else []
  }

  lemma ScanStep(kinds: seq<LineKind>, i: nat, inVideo: bool)
    requires i < |kinds|
    ensures Scan(kinds[i..], inVideo) ==
      match kinds[i]
      case VideoHeaderLine => Scan(kinds[i + 1..], true)
      case AudioHeaderLine => []
      case DeviceLine(d) => (if inVideo then [d] else []) + Scan(kinds[i + 1..], inVideo)
      case OtherLine => Scan(kinds[i + 1..], inVideo)
  {
    assert kinds[i..][0] == kinds[i] && kinds[i..][1..] == kinds[i + 1..];
  }

  lemma AppendAssociative(a: seq<Device>, b: seq<Device>, c: seq<Device>)
    ensures (a + b) + c == a + (b + c)
  {
  }

  /** The body of the listing callback after the section check: the `for` loop over the lines. */
  method ParseDeviceList(stderr: string) returns (devices: seq<Device>)
    ensures devices == ListedDevices(stderr)
  {
    devices := [];
    if !Contains(stderr, VideoHeader) {
      return;
    }
    var lines := Split(stderr, '\n');
    ghost var kinds := ClassifyLines(lines);
    var inVideoSection := false;
    var i := 0;
    while i < |lines|
      invariant 0 <= i <= |lines|
      invariant devices + Scan(kinds[i..], inVideoSection) == Scan(kinds, false)
    {
      var line := lines[i];
      ScanStep(kinds, i, inVideoSection);
      assert kinds[i] == Classify(line);
      if Contains(line, VideoHeader) {
        inVideoSection := true;
        i := i + 1;
        continue;
      }
      if Contains(line, AudioHeader) {
        inVideoSection := false;
        break;
      }
      ghost var rest := Scan(kinds[i + 1..], inVideoSection);
      assert kinds[i] == match LineDevice(line) case Some(d) => DeviceLine(d) case None => OtherLine;
      if inVideoSection {
        var found := LineDevice(line);
        if found.Some? {
          assert Scan(kinds[i..], inVideoSection) == [found.value] + rest;
          AppendAssociative(devices, [found.value], rest);
          devices := devices + [found.value];
        } else {
          assert Scan(kinds[i..], inVideoSection) == rest;
        }
      } else {
        assert Scan(kinds[i..], inVideoSection) == rest;
      }
      assert devices + rest == Scan(kinds, false);
      i := i + 1;
    }
    if i == |lines| {
      assert kinds[i..] == [];
    }
  }

  // ------------------------------------------------------ which lines are listed

  /** Line `i` yields a device: a device line inside the video section, before any audio header. */
  ghost predicate ListedAt(kinds: seq<LineKind>, i: int, inVideo: bool)
  {
    && 0 <= i < |kinds|
    && kinds[i].DeviceLine?
    && (inVideo || exists h :: 0 <= h < i && kinds[h].VideoHeaderLine?)
    && (forall k :: 0 <= k < i ==> !kinds[k].AudioHeaderLine?)
  }

  /** Past a line that is not the audio header, a line is listed as it is listed in the rest. */
  lemma ListedInRest(kinds: seq<LineKind>, i: int, inVideo: bool)
    requires |kinds| > 0 && !kinds[0].AudioHeaderLine? && 1 <= i
    ensures ListedAt(kinds, i, inVideo) <==> ListedAt(kinds[1..], i - 1, inVideo || kinds[0].VideoHeaderLine?)
  {
    var rest := kinds[1..];
    if ListedAt(kinds, i, inVideo) && !inVideo && !kinds[0].VideoHeaderLine? {
      var h :| 0 <= h < i && kinds[h].VideoHeaderLine?;
      assert 0 <= h - 1 < i - 1 && rest[h - 1].VideoHeaderLine?;
    }
    if ListedAt(rest, i - 1, inVideo || kinds[0].VideoHeaderLine?) {
      assert forall k :: 1 <= k < i ==> kinds[k] == rest[k - 1];
      if !inVideo && !kinds[0].VideoHeaderLine? {
        var h :| 0 <= h < i - 1 && rest[h].VideoHeaderLine?;
        assert 0 <= h + 1 < i && kinds[h + 1].VideoHeaderLine?;
      }
    }
  }

  /** The scan yields exactly the devices of the listed lines. */
  lemma {:induction false} ScanMembers(kinds: seq<LineKind>, inVideo: bool, d: Device)
    ensures d in Scan(kinds, inVideo) <==> exists i :: ListedAt(kinds, i, inVideo) && kinds[i].device == d
    decreases |kinds|
  {
    if kinds != [] {
      var rest := kinds[1..];
      var inRest := inVideo || kinds[0].VideoHeaderLine?;
      if kinds[0].AudioHeaderLine? {
        forall i | ListedAt(kinds, i, inVideo) ensures false { }
      } else {
        ScanMembers(rest, inRest, d);
        assert d in Scan(kinds, inVideo) <==> (ListedAt(kinds, 0, inVideo) && kinds[0].device == d) || d in Scan(rest, inRest);
        if d in Scan(rest, inRest) {
          var i :| ListedAt(rest, i, inRest) && rest[i].device == d;
          ListedInRest(kinds, i + 1, inVideo);
        }
        if exists i :: ListedAt(kinds, i, inVideo) && kinds[i].device == d {
          var i :| ListedAt(kinds, i, inVideo) && kinds[i].device == d;
          if i > 0 {
            ListedInRest(kinds, i, inVideo);
          }
        }
      }
    }
  }

  // ------------------------------------------------------------ the whole search

  /** What running one ffmpeg's listing command gives: the error's exit code, if it failed, and standard error. */
  datatype ExecError = ExecError(code: Option<int>)
  datatype Listing = Listing(error: Option<ExecError>, stderr: string)

  function ListCommand(ffmpeg: string): string
  {
    ffmpeg + " -f avfoundation -list_devices true -i \"\""
  }

  /** A listing is read unless the command failed with an exit code other than 1 or 251. */
  predicate ListingUsable(l: Listing)
  {
    l.error.None? || l.error.value.code == Some(1) || l.error.value.code == Some(251)
  }

  /** Whether the listing run with each ffmpeg can be read; `listing` gives the result of running a command. */
  function UsableWith(listing: string -> Listing): string -> bool
  {
    ffmpeg => ListingUsable(listing(ListCommand(ffmpeg)))
  }

  /** The list `detectVideoDevices` resolves with. */
  function DetectedDevices(listing: string -> Listing): seq<Device>
  {
    match FirstSuccessIndex(FfmpegPaths, UsableWith(listing))
    case None => [FfmpegMissing]
    case Some(k) =>
      var found := ListedDevices(listing(ListCommand(FfmpegPaths[k])).stderr);
      if found == [] then [NoVideoDevices] else found
  }

  /** `detectVideoDevices`: `tryNextPath` over the ffmpeg paths, then the parse of the first usable listing. */
  method DetectVideoDevices(listing: string -> Listing) returns (devices: seq<Device>)
    ensures devices == DetectedDevices(listing)
  {
    var found, _ := TryInOrder(FfmpegPaths, UsableWith(listing));
    match found
    case None =>
      devices := [FfmpegMissing];
    case Some(k) =>
      devices := ParseDeviceList(listing(ListCommand(FfmpegPaths[k])).stderr);
      if devices == [] {
        devices := [NoVideoDevices];
      }
  }

  /**
   * The list is never empty, and it is either one error entry (index -1)
   * naming the problem, or real devices only.
   */
  lemma DetectedDevicesShape(listing: string -> Listing)
    ensures var r := DetectedDevices(listing);
      || r == [FfmpegMissing]
      || r == [NoVideoDevices]
      || (r != [] && forall d :: d in r ==> d.index >= 0 && !d.error)
    ensures var r := DetectedDevices(listing);
      r == [FfmpegMissing] <==> forall k :: 0 <= k < |FfmpegPaths| ==> !ListingUsable(listing(ListCommand(FfmpegPaths[k])))
  {
    match FirstSuccessIndex(FfmpegPaths, UsableWith(listing))
    case None =>
    case Some(k) =>
      var stderr := listing(ListCommand(FfmpegPaths[k])).stderr;
      if Contains(stderr, VideoHeader) {
        var kinds := ClassifyLines(Split(stderr, '\n'));
        forall d | d in Scan(kinds, false) ensures d.index >= 0 && !d.error {
          ScanMembers(kinds, false, d);
        }
      }
  }
}
