/**
 * `captureStill` and its strategies (src/main.js): the capture file's name
 * and path, the ffmpeg search, the framerate and device-name retries, and
 * the order in which the capture methods are tried. What each external
 * command does (exit status, the file left behind) is an input: an
 * `Environment` of outcomes.
 */
module Capture {
  import opened Wrappers
  import opened Text
  import Paths
  import opened Fallback
  import opened DeviceList
  import IpAddress

  // ------------------------------------------------------------------ settings

  datatype Settings = Settings(
    outputPath: string,
    namingConvention: string,
    routerIP: string,
    selectedDevice: Option<Device>,
    detectedFramerate: Option<real>)

  const DefaultConvention: string := "capture_{input}_{timestamp}"
  const DefaultRouterIP: string := "10.101.130.101"

  /**
   * The settings before any are loaded: captures go to the working
   * directory under the `capture_{input}_{timestamp}` convention, the
   * router address passes `validateIP`, no device is
   * selected, and the framerates tried are the standard ones in their order.
   */
  function DefaultSettings(workingDirectory: string): (s: Settings)
    ensures s.outputPath == workingDirectory && s.selectedDevice.None?
    ensures s.namingConvention == DefaultConvention
    ensures IpAddress.ValidateIP(s.routerIP)
    ensures FramerateCandidates(s.detectedFramerate) == StandardFramerates
  {
    IpAddress.DefaultRouterIsQuad();
    IpAddress.ValidateIPMeaning(DefaultRouterIP);
    FramerateDefault();
    Settings(workingDirectory, DefaultConvention, DefaultRouterIP, None, Some(30.0))
  }

  // ------------------------------------------------------------- the file name

  /** `toISOString().replace(/[:.]/g, '-')`: every `:` and `.` becomes `-`, nothing else changes. */
  function FileTimestamp(iso: string): (r: string)
    ensures |r| == |iso| && ':' !in r && '.' !in r
    ensures forall i :: 0 <= i < |iso| && (iso[i] == ':' || iso[i] == '.') ==> r[i] == '-'
    ensures forall i :: 0 <= i < |iso| && iso[i] != ':' && iso[i] != '.' ==> r[i] == iso[i]
  {
    seq(|iso|, i requires 0 <= i < |iso| => if iso[i] == ':' || iso[i] == '.' then '-' else iso[i])
  }

  /**
   * The naming convention with its first `{input}`, then its first
   * `{timestamp}`, filled in; `input` is the text of the argument of
   * `captureStill` (the window asks for `current`).
   */
  function CaptureFilename(convention: string, input: string, timestamp: string): string
  {
    ReplaceFirst(ReplaceFirst(convention, "{input}", input), "{timestamp}", timestamp)
  }

  /** What the window's capture request passes as the input. */
  const CurrentInput: string := "current"

  /** The decimal text of a number holds no `{`. */
  lemma NoBraceInDecimal(n: int)
    ensures '{' !in IntToDecimal(n)
  {
    var digits := NatToDecimal(if n < 0 then -n else n);
    assert forall k :: 0 <= k < |digits| ==> IsDigit(digits[k]);
    assert '{' !in digits;
  }

  lemma FillInput(number: string)
    ensures ReplaceFirst(DefaultConvention, "{input}", number) == "capture_" + number + "_{timestamp}"
  {
    assert DefaultConvention == "capture_" + "{input}" + "_{timestamp}";
    ReplaceAfterPrefix("capture_", "{input}", "_{timestamp}", number);
  }

  lemma FillTimestamp(number: string, timestamp: string)
    requires '{' !in number
    ensures ReplaceFirst("capture_" + number + "_{timestamp}", "{timestamp}", timestamp) == "capture_" + number + "_" + timestamp
  {
    var a := "capture_" + number + "_";
    assert '{' !in a;
    assert "capture_" + number + "_{timestamp}" == a + "{timestamp}" + "";
    ReplaceAfterPrefix(a, "{timestamp}", "", timestamp);
  }

  /** Under the default convention the name is `capture_<input>_<timestamp>`, whatever the timestamp holds. */
  lemma DefaultCaptureFilename(input: string, timestamp: string)
    requires '{' !in input
    ensures CaptureFilename(DefaultConvention, input, timestamp) == "capture_" + input + "_" + timestamp
  {
    FillInput(input);
    FillTimestamp(input, timestamp);
  }

  /** A numbered input fills in as its decimal text. */
  lemma NumberedCaptureFilename(inputNumber: int, timestamp: string)
    ensures CaptureFilename(DefaultConvention, IntToDecimal(inputNumber), timestamp)
      == "capture_" + IntToDecimal(inputNumber) + "_" + timestamp
  {
    NoBraceInDecimal(inputNumber);
    DefaultCaptureFilename(IntToDecimal(inputNumber), timestamp);
  }

  /** `path.join(outputPath, filename + '.png')`. */
  function CapturePath(outputPath: string, filename: string): string
  {
    Paths.Join(outputPath, filename + ".png")
  }

  /** The capture lands in the output folder, named after the file name with the `.png` extension. */
  lemma CapturePathParts(outputPath: string, filename: string)
    requires filename != [] && '/' !in filename
    ensures Paths.Basename(CapturePath(outputPath, filename)) == filename + ".png"
    ensures Paths.Extname(CapturePath(outputPath, filename)) == ".png"
    ensures Paths.Stem(CapturePath(outputPath, filename)) == filename
    ensures outputPath != [] && outputPath[|outputPath| - 1] != '/' ==>
      Paths.Dirname(CapturePath(outputPath, filename)) == outputPath
  {
    var name := filename + ".png";
    assert '/' !in name by {
      assert forall k :: 0 <= k < |name| ==> name[k] != '/' by {
        assert forall k :: 0 <= k < |filename| ==> name[k] == filename[k];
      }
    }
    Paths.BasenameOfJoin(outputPath, name);
    Paths.StemOfFileName(outputPath, filename, ".png");
    if outputPath != [] && outputPath[|outputPath| - 1] != '/' {
      Paths.DirnameOfJoin(outputPath, name);
    }
  }

  // ------------------------------------------------------- the external commands

  datatype FileState = NoFile | FileOfSize(size: nat)

  /** How a capture command ended: whether it reported an error, and what it left at the output path. */
  datatype RunOutcome = RunOutcome(failed: bool, file: FileState)

  /** The capture commands: `-framerate <r> -i "<input>" ... -update 1`, and the device-name form `-i "<name>" ... -y`. */
  datatype CaptureCommand =
    | AtRate(ffmpeg: string, framerate: real, input: string, filepath: string)
    | ByName(ffmpeg: string, deviceName: string, filepath: string)

  /** The outcome of each external command, and whether a folder may be written to. */
  datatype Environment = Environment(
    writable: string -> bool,
    versionRuns: string -> bool,
    listing: string -> Listing,
    capture: CaptureCommand -> RunOutcome)

  /** The success test of the framerate, index and first-device captures: a file of more than 0 bytes. */
  predicate NonEmptyFile(o: RunOutcome)
  {
    o.file.FileOfSize? && o.file.size > 0
  }

  // ---------------------------------------------------------- findWorkingFFmpeg

  function VersionWorks(env: Environment): string -> bool
  {
    ffmpeg => env.versionRuns(ffmpeg + " -version")
  }

  /** The first ffmpeg whose `-version` runs without error. */
  function WorkingFfmpeg(env: Environment): (r: Option<string>)
    ensures r.Some? ==> exists k :: (0 <= k < |FfmpegPaths| && r.value == FfmpegPaths[k]
      && env.versionRuns(FfmpegPaths[k] + " -version")
      && forall j :: 0 <= j < k ==> !env.versionRuns(FfmpegPaths[j] + " -version"))
    ensures r.None? <==> forall k :: 0 <= k < |FfmpegPaths| ==> !env.versionRuns(FfmpegPaths[k] + " -version")
  {
    match FirstSuccessIndex(FfmpegPaths, VersionWorks(env))
    case None => None
    case Some(k) => Some(FfmpegPaths[k])
  }

  /** `findWorkingFFmpeg`: `tryPath` over the ffmpeg paths. */
  method FindWorkingFFmpeg(env: Environment) returns (ffmpeg: Option<string>)
    ensures ffmpeg == WorkingFfmpeg(env)
  {
    var found, _ := TryInOrder(FfmpegPaths, VersionWorks(env));
    ffmpeg := if found.Some? then Some(FfmpegPaths[found.value]) else None;
  }

  // ------------------------------------------------------------------ framerates

  /** `s.indexOf(x)`: where `x` first occurs in `s`. */
  function FirstPosition<T(==)>(s: seq<T>, x: T): (k: nat)
    requires x in s
    ensures k < |s| && s[k] == x && x !in s[..k]
  {
    if s[0] == x then 0
    else
      assert x in s[1..];
      var k := 1 + FirstPosition(s[1..], x);
      assert s[..k] == [s[0]] + s[1..][..k - 1];
      k
  }

  /** A position holding `x` with no `x` before it is the first position. */
  lemma FirstPositionAt<T>(s: seq<T>, x: T, k: nat)
    requires k < |s| && s[k] == x && x !in s[..k]
    ensures FirstPosition(s, x) == k
  {
  }

  /** Appending to `s` does not move the first position of what `s` holds. */
  lemma FirstPositionOfPrefix<T>(s: seq<T>, last: T, x: T)
    requires x in s
    ensures FirstPosition(s + [last], x) == FirstPosition(s, x)
  {
    var k := FirstPosition(s, x);
    assert (s + [last])[..k] == s[..k];
    FirstPositionAt(s + [last], x, k);
  }

  /**
   * `filter((v, i, a) => a.indexOf(v) === i)`: each value once, the values
   * in the order of their first occurrence in `s`.
   */
  function KeepFirstOccurrences<T(==,!new)>(s: seq<T>): (r: seq<T>)
    ensures forall x :: x in r <==> x in s
    ensures forall i, j :: 0 <= i < j < |r| ==> FirstPosition(s, r[i]) < FirstPosition(s, r[j])
    ensures forall i, j :: 0 <= i < j < |r| ==> r[i] != r[j]
    ensures s != [] ==> r != [] && r[0] == s[0]
  {
    if s == [] then []
    else
      var init := s[..|s| - 1];
      var last := s[|s| - 1];
      assert s == init + [last];
      var kept := KeepFirstOccurrences(init);
      assert forall y | y in init :: FirstPosition(s, y) == FirstPosition(init, y) by {
        forall y | y in init ensures FirstPosition(s, y) == FirstPosition(init, y) {
          FirstPositionOfPrefix(init, last, y);
        }
      }
      if last in init then kept
      else
        FirstPositionAt(s, last, |init|);
        kept + [last]
  }

  /** `s` without any `x`, the rest in order. */
  function Without<T(==,!new)>(s: seq<T>, x: T): (r: seq<T>)
    ensures forall y :: y in r <==> y in s && y != x
  {
    if s == [] then []
    else
      assert s == s[..|s| - 1] + [s[|s| - 1]];
      Without(s[..|s| - 1], x) + (if s[|s| - 1] == x then [] else [s[|s| - 1]])
  }

  /** Values that occur once each. */
  predicate Distinct<T(==)>(s: seq<T>)
  {
    forall i, j :: 0 <= i < j < |s| ==> s[i] != s[j]
  }

  /** Put in front of distinct values, `d` stays first and its later copy is dropped. */
  lemma {:induction false} KeepFirstAfterHead<T(!new)>(d: T, s: seq<T>)
    requires Distinct(s)
    ensures KeepFirstOccurrences([d] + s) == [d] + Without(s, d)
    decreases |s|
  {
    if s == [] {
      assert [d] + s == [d] && [d][..0] == [];
    } else {
      var init, y := s[..|s| - 1], s[|s| - 1];
      var t := [d] + s;
      assert s == init + [y];
      assert t[..|t| - 1] == [d] + init && t[|t| - 1] == y;
      assert y !in init by {
        forall k | 0 <= k < |init| ensures init[k] != y {
          assert init[k] == s[k];
        }
      }
      assert y in [d] + init <==> y == d;
      KeepFirstStep(t);
      WithoutStep(s, d);
      KeepFirstAfterHead(d, init);
    }
  }

  /** One step of `KeepFirstOccurrences`: the last value is kept unless it occurred before. */
  lemma KeepFirstStep<T(!new)>(s: seq<T>)
    requires s != []
    ensures KeepFirstOccurrences(s) == KeepFirstOccurrences(s[..|s| - 1])
      + (if s[|s| - 1] in s[..|s| - 1] then [] else [s[|s| - 1]])
  {
  }

  /** One step of `Without`. */
  lemma WithoutStep<T(!new)>(s: seq<T>, x: T)
    requires s != []
    ensures Without(s, x) == Without(s[..|s| - 1], x) + (if s[|s| - 1] == x then [] else [s[|s| - 1]])
  {
  }

  const StandardFramerates: seq<real> := [30.0, 29.97, 24.0, 23.98]

  /** `settings.detectedFramerate || 30`: a missing or zero framerate counts as 30. */
  function DetectedOr30(detected: Option<real>): real
  {
    if detected.None? || detected.value == 0.0 then 30.0 else detected.value
  }

  /**
   * The framerates tried, in order: the detected one, then the standard
   * ones in their order with the detected one left out, so each once.
   */
  function FramerateCandidates(detected: Option<real>): (r: seq<real>)
    ensures r == [DetectedOr30(detected)] + Without(StandardFramerates, DetectedOr30(detected))
    ensures forall x :: x in StandardFramerates ==> x in r
    ensures forall i, j :: 0 <= i < j < |r| ==> r[i] != r[j]
  {
    assert Distinct(StandardFramerates);
    KeepFirstAfterHead(DetectedOr30(detected), StandardFramerates);
    KeepFirstOccurrences([DetectedOr30(detected)] + StandardFramerates)
  }

  /** The standard rates with one value left out, computed from the back. */
  lemma WithoutStandard(x: real)
    ensures Without(StandardFramerates, x) ==
      (if x == 30.0 then [] else [30.0]) + (if x == 29.97 then [] else [29.97])
      + (if x == 24.0 then [] else [24.0]) + (if x == 23.98 then [] else [23.98])
  {
    var s0, s1, s2, s3 := [], [30.0], [30.0, 29.97], [30.0, 29.97, 24.0];
    assert StandardFramerates[..3] == s3 && s3[..2] == s2 && s2[..1] == s1 && s1[..0] == s0;
    assert Without(s1, x) == (if x == 30.0 then [] else [30.0]);
    assert Without(s2, x) == Without(s1, x) + (if x == 29.97 then [] else [29.97]);
    assert Without(s3, x) == Without(s2, x) + (if x == 24.0 then [] else [24.0]);
    assert Without(StandardFramerates, x) == Without(s3, x) + (if x == 23.98 then [] else [23.98]);
  }

  /** The default 30 adds nothing new. */
  lemma FramerateDefault()
    ensures FramerateCandidates(None) == StandardFramerates
  {
    FramerateCase(None, 30.0);
  }

  /** A preview-detected 25 is tried before the standard rates. */
  lemma FramerateDetected()
    ensures FramerateCandidates(Some(25.0)) == [25.0] + StandardFramerates
  {
    FramerateCase(Some(25.0), 25.0);
  }

  /** A detected standard rate, 24, moves to the front and is not tried twice. */
  lemma FramerateDetectedStandard()
    ensures FramerateCandidates(Some(24.0)) == [24.0, 30.0, 29.97, 23.98]
  {
    FramerateCase(Some(24.0), 24.0);
  }

  lemma FramerateCase(detected: Option<real>, d: real)
    requires DetectedOr30(detected) == d
    ensures FramerateCandidates(detected) ==
      [d] + (if d == 30.0 then [] else [30.0]) + (if d == 29.97 then [] else [29.97])
      + (if d == 24.0 then [] else [24.0]) + (if d == 23.98 then [] else [23.98])
  {
    WithoutStandard(d);
  }

  // ------------------------------------------------------- method 0: selected device

  function RateWorks(env: Environment, ffmpeg: string, device: Device, filepath: string): real -> bool
  {
    rate => NonEmptyFile(env.capture(AtRate(ffmpeg, rate, IntToDecimal(device.index), filepath)))
  }

  /** The selected device's capture succeeds: some candidate framerate leaves a non-empty file. */
  function SelectedDeviceCaptures(env: Environment, settings: Settings, device: Device, filepath: string): bool
  {
    match WorkingFfmpeg(env)
    case None => false
    case Some(ffmpeg) =>
      FirstSuccessIndex(FramerateCandidates(settings.detectedFramerate), RateWorks(env, ffmpeg, device, filepath)).Some?
  }

  lemma SelectedDeviceMeaning(env: Environment, settings: Settings, device: Device, filepath: string)
    ensures SelectedDeviceCaptures(env, settings, device, filepath) <==>
      WorkingFfmpeg(env).Some? &&
      exists rate :: rate in FramerateCandidates(settings.detectedFramerate)
        && NonEmptyFile(env.capture(AtRate(WorkingFfmpeg(env).value, rate, IntToDecimal(device.index), filepath)))
  {
    if WorkingFfmpeg(env).Some? {
      var rates := FramerateCandidates(settings.detectedFramerate);
      var works := RateWorks(env, WorkingFfmpeg(env).value, device, filepath);
      if exists rate :: rate in rates && works(rate) {
        var rate :| rate in rates && works(rate);
        var k :| 0 <= k < |rates| && rates[k] == rate;
      }
    }
  }

  /**
   * `trySelectedDeviceCapture`: the framerates are tried in order
   * (`framerateIndex++`) until one leaves a non-empty file; `tried` are
   * the framerates used, in order.
   */
  method TrySelectedDeviceCapture(env: Environment, settings: Settings, device: Device, filepath: string)
    returns (success: bool, tried: seq<real>)
    ensures success == SelectedDeviceCaptures(env, settings, device, filepath)
    ensures tried <= FramerateCandidates(settings.detectedFramerate)
    ensures WorkingFfmpeg(env).None? ==> tried == []
    ensures !success && WorkingFfmpeg(env).Some? ==> tried == FramerateCandidates(settings.detectedFramerate)
    ensures success ==> tried != [] && NonEmptyFile(
      env.capture(AtRate(WorkingFfmpeg(env).value, tried[|tried| - 1], IntToDecimal(device.index), filepath)))
    ensures success ==> forall i :: 0 <= i < |tried| - 1 ==>
      !NonEmptyFile(env.capture(AtRate(WorkingFfmpeg(env).value, tried[i], IntToDecimal(device.index), filepath)))
  {
    var ffmpeg := FindWorkingFFmpeg(env);
    if ffmpeg.None? {
      return false, [];
    }
    var rates := FramerateCandidates(settings.detectedFramerate);
    var works := RateWorks(env, ffmpeg.value, device, filepath);
    var winner, attempts := TryInOrder(rates, works);
    success := winner.Some?;
    tried := rates[..attempts];
  }

  // -------------------------------------------------------- method 1: device index

  /** `/\[(\d+)\] (.+)/` matches at `p` with `d` digits (a `]` ends the digits, so they are all of the run). */
  ghost predicate IndexedEntryAt(s: string, p: nat, d: nat)
  {
    && p + 3 + d < |s| && 1 <= d
    && s[p] == '['
    && (forall i :: p + 1 <= i < p + 1 + d ==> IsDigit(s[i]))
    && s[p + 1 + d] == ']' && s[p + 2 + d] == ' '
    && !IsLineTerminator(s[p + 3 + d])
  }

  /** The leftmost match of `/\[(\d+)\] (.+)/` from `from`: its position and digit count. */
  function FirstIndexedEntry(s: string, from: nat): (r: Option<(nat, nat)>)
    requires from <= |s|
    ensures r.Some? ==> from <= r.value.0 && IndexedEntryAt(s, r.value.0, r.value.1)
    ensures r.Some? ==> forall q: nat, e: nat :: from <= q < r.value.0 ==> !IndexedEntryAt(s, q, e)
    ensures r.None? ==> forall q: nat, e: nat :: from <= q ==> !IndexedEntryAt(s, q, e)
    decreases |s| - from
  {
    if from == |s| then None
    else
      var d := SpanDigits(s, from + 1);
      if s[from] == '[' && 1 <= d && from + 3 + d < |s| && s[from + 1 + d] == ']' && s[from + 2 + d] == ' '
         && !IsLineTerminator(s[from + 3 + d])
      then Some((from, d))
      else
        assert forall e: nat :: !IndexedEntryAt(s, from, e);
        FirstIndexedEntry(s, from + 1)
  }

  /** `tryDeviceIndexCapture`: capture at 30 fps from the index of the first `[n] name` entry of a usable listing. */
  function DeviceIndexCaptures(env: Environment, filepath: string): (ok: bool)
    ensures ok ==> WorkingFfmpeg(env).Some? && ListingUsable(env.listing(ListCommand(WorkingFfmpeg(env).value)))
  {
    match WorkingFfmpeg(env)
    case None => false
    case Some(ffmpeg) =>
      var listed := env.listing(ListCommand(ffmpeg));
      var stderr := listed.stderr;
      ListingUsable(listed) &&
        match FirstIndexedEntry(stderr, 0)
        case None => false
        case Some(entry) =>
          var index := stderr[entry.0 + 1..entry.0 + 1 + entry.1];
          NonEmptyFile(env.capture(AtRate(ffmpeg, 30.0, index, filepath)))
  }

  /**
   * The device-index method succeeds exactly when an ffmpeg works, its
   * listing is usable, and the 30 fps capture of the digits of the leftmost
   * `[n] name` entry leaves a non-empty file.
   */
  lemma DeviceIndexMeaning(env: Environment, filepath: string)
    ensures DeviceIndexCaptures(env, filepath) <==>
      && WorkingFfmpeg(env).Some?
      && var ffmpeg := WorkingFfmpeg(env).value;
      && var stderr := env.listing(ListCommand(ffmpeg)).stderr;
      && ListingUsable(env.listing(ListCommand(ffmpeg)))
      && exists p: nat, d: nat :: (
        && IndexedEntryAt(stderr, p, d)
        && (forall q: nat, e: nat :: q < p ==> !IndexedEntryAt(stderr, q, e))
        && NonEmptyFile(env.capture(AtRate(ffmpeg, 30.0, stderr[p + 1..p + 1 + d], filepath))))
  {
    if WorkingFfmpeg(env).Some? {
      var ffmpeg := WorkingFfmpeg(env).value;
      var stderr := env.listing(ListCommand(ffmpeg)).stderr;
      var first := FirstIndexedEntry(stderr, 0);
      forall p: nat, d: nat | IndexedEntryAt(stderr, p, d) && (forall q: nat, e: nat :: q < p ==> !IndexedEntryAt(stderr, q, e))
        ensures first == Some((p, d))
      {
        EntryDigitsUnique(stderr, p, d, first.value.1);
      }
    }
  }

  /** At one position the digit run of `[n] ` has one length. */
  lemma EntryDigitsUnique(s: string, p: nat, d: nat, e: nat)
    requires IndexedEntryAt(s, p, d) && IndexedEntryAt(s, p, e)
    ensures d == e
  {
  }

  // --------------------------------------------------------- method 2: device name

  const DeviceNames: seq<string> := [
    "UltraStudio Recorder 3G",
    "Blackmagic UltraStudio Recorder 3G",
    "UltraStudio HD Mini",
    "Blackmagic UltraStudio HD Mini",
    "UltraStudio"]

  /** The device-name capture's success test: no error and a file exists (of any size). */
  function NameWorks(env: Environment, ffmpeg: string, filepath: string): string -> bool
  {
    name => var o := env.capture(ByName(ffmpeg, name, filepath)); !o.failed && o.file.FileOfSize?
  }

  function DeviceNameCaptures(env: Environment, filepath: string): bool
  {
    match WorkingFfmpeg(env)
    case None => false
    case Some(ffmpeg) => FirstSuccessIndex(DeviceNames, NameWorks(env, ffmpeg, filepath)).Some?
  }

  /** `tryDeviceNameCapture`: the names are tried in order (`tried++`) until one works. */
  method TryDeviceNameCapture(env: Environment, filepath: string) returns (success: bool)
    ensures success == DeviceNameCaptures(env, filepath)
    ensures success <==> (WorkingFfmpeg(env).Some? &&
      exists k :: 0 <= k < |DeviceNames| && NameWorks(env, WorkingFfmpeg(env).value, filepath)(DeviceNames[k]))
  {
    var ffmpeg := FindWorkingFFmpeg(env);
    if ffmpeg.None? {
      return false;
    }
    var winner, _ := TryInOrder(DeviceNames, NameWorks(env, ffmpeg.value, filepath));
    success := winner.Some?;
  }

  // -------------------------------------------------------- method 3: first device

  /** `/\[0\] (.+)/` matches at `p`. */
  predicate ZeroEntryAt(s: string, p: nat)
  {
    p + 4 < |s| && s[p..p + 4] == "[0] " && !IsLineTerminator(s[p + 4])
  }

  /** Whether `/\[0\] (.+)/` matches anywhere from `from`. */
  function HasZeroEntry(s: string, from: nat): (r: bool)
    requires from <= |s|
    ensures r <==> exists p :: from <= p && ZeroEntryAt(s, p)
    decreases |s| - from
  {
    if from == |s| then false
    else ZeroEntryAt(s, from) || HasZeroEntry(s, from + 1)
  }

  /** `tryFirstDeviceCapture`: capture device `0` at 30 fps when a usable listing has a `[0] name` entry. */
  function FirstDeviceCaptures(env: Environment, filepath: string): (ok: bool)
    ensures ok ==> WorkingFfmpeg(env).Some?
  {
    match WorkingFfmpeg(env)
    case None => false
    case Some(ffmpeg) =>
      var listed := env.listing(ListCommand(ffmpeg));
      ListingUsable(listed) && HasZeroEntry(listed.stderr, 0)
      && NonEmptyFile(env.capture(AtRate(ffmpeg, 30.0, "0", filepath)))
  }

  /**
   * The first-device method succeeds exactly when an ffmpeg works, its
   * listing is usable and holds a `[0] name` entry, and the 30 fps capture
   * of device `0` leaves a non-empty file.
   */
  lemma FirstDeviceMeaning(env: Environment, filepath: string)
    ensures FirstDeviceCaptures(env, filepath) <==>
      && WorkingFfmpeg(env).Some?
      && var listed := env.listing(ListCommand(WorkingFfmpeg(env).value));
      && ListingUsable(listed)
      && (exists p :: ZeroEntryAt(listed.stderr, p))
      && NonEmptyFile(env.capture(AtRate(WorkingFfmpeg(env).value, 30.0, "0", filepath)))
  {
  }

  // ---------------------------------------------------------------- the chain

  datatype Strategy = SelectedDevice | DeviceIndex | DeviceName | FirstDevice

  /** The `method` field reported for each strategy. */
  function MethodTag(s: Strategy): string
  {
    match s
    case SelectedDevice => "selected_device"
    case DeviceIndex => "device_index"
    case DeviceName => "device_name"
    case FirstDevice => "first_device"
  }

  const AllFailedMessage: string := "All capture methods failed. Check console logs for details."

  datatype CaptureResult = Captured(filepath: string, methodTag: string) | CaptureFailed(error: string)

  const FallbackStrategies: seq<Strategy> := [DeviceIndex, DeviceName, FirstDevice]

  /** The strategies in the order they are tried; the selected device only when one is selected. */
  function Strategies(settings: Settings): seq<Strategy>
  {
    (if settings.selectedDevice.Some? then [SelectedDevice] else []) + FallbackStrategies
  }

  /**
   * The result of trying `strategies` in order, `works[k]` telling whether
   * the `k`-th one succeeds: the first that works, or the fixed failure.
   */
  function Chain(filepath: string, strategies: seq<Strategy>, works: seq<bool>): (r: CaptureResult)
    requires |works| == |strategies|
    ensures r.Captured? ==> r.filepath == filepath && exists k :: (0 <= k < |strategies| && works[k]
      && r.methodTag == MethodTag(strategies[k]) && forall j :: 0 <= j < k ==> !works[j])
    ensures r.CaptureFailed? <==> forall k :: 0 <= k < |works| ==> !works[k]
    ensures r.CaptureFailed? ==> r.error == AllFailedMessage
  {
    if strategies == [] then CaptureFailed(AllFailedMessage)
    else if works[0] then Captured(filepath, MethodTag(strategies[0]))
    else
      var rest := Chain(filepath, strategies[1..], works[1..]);
      assert rest.Captured? ==> exists k :: (0 <= k < |strategies| && works[k]
        && rest.methodTag == MethodTag(strategies[k]) && forall j :: 0 <= j < k ==> !works[j]) by {
        if rest.Captured? {
          var k :| 0 <= k < |strategies| - 1 && works[1..][k]
            && rest.methodTag == MethodTag(strategies[1..][k]) && forall j :: 0 <= j < k ==> !works[1..][j];
          assert works[k + 1] && rest.methodTag == MethodTag(strategies[k + 1]);
        }
      }
      rest
  }

  /** Whether each of the three fallbacks works, in order. */
  function FallbackResults(env: Environment, filepath: string): (r: seq<bool>)
    ensures |r| == |FallbackStrategies|
  {
    [DeviceIndexCaptures(env, filepath), DeviceNameCaptures(env, filepath), FirstDeviceCaptures(env, filepath)]
  }

  /** Whether each strategy of `Strategies(settings)` works, in order. */
  function StrategyResults(env: Environment, settings: Settings, filepath: string): (r: seq<bool>)
    ensures |r| == |Strategies(settings)|
  {
    (if settings.selectedDevice.Some?
     then [SelectedDeviceCaptures(env, settings, settings.selectedDevice.value, filepath)]
     else [])
    + FallbackResults(env, filepath)
  }

  /** What `captureStill` resolves with for the capture at `filepath`. */
  function CaptureOutcome(env: Environment, settings: Settings, filepath: string): CaptureResult
  {
    Chain(filepath, Strategies(settings), StrategyResults(env, settings, filepath))
  }

  lemma ChainOfFallbacks(filepath: string, works: seq<bool>)
    requires |works| == 3
    ensures Chain(filepath, FallbackStrategies, works) ==
      if works[0] then Captured(filepath, "device_index")
      else if works[1] then Captured(filepath, "device_name")
      else if works[2] then Captured(filepath, "first_device")
      else CaptureFailed(AllFailedMessage)
  {
    assert FallbackStrategies[1..] == [DeviceName, FirstDevice] && FallbackStrategies[1..][1..] == [FirstDevice];
    assert works[1..][1..] == [works[2]] && [works[2]][1..] == [];
  }

  /** `tryFallbackMethods`: device index, then device name, then first device. */
  method TryFallbackMethods(env: Environment, filepath: string) returns (result: CaptureResult)
    ensures result == Chain(filepath, FallbackStrategies, FallbackResults(env, filepath))
  {
    ChainOfFallbacks(filepath, FallbackResults(env, filepath));
    if DeviceIndexCaptures(env, filepath) {
      return Captured(filepath, "device_index");
    }
    var byName := TryDeviceNameCapture(env, filepath);
    if byName {
      return Captured(filepath, "device_name");
    }
    if FirstDeviceCaptures(env, filepath) {
      return Captured(filepath, "first_device");
    }
    result := CaptureFailed(AllFailedMessage);
  }

  /** `tryCaptureMethods`: the selected device first, when there is one, then the fallbacks. */
  method TryCaptureMethods(env: Environment, settings: Settings, filepath: string) returns (result: CaptureResult)
    ensures result == CaptureOutcome(env, settings, filepath)
  {
    ghost var strategies := Strategies(settings);
    ghost var works := StrategyResults(env, settings, filepath);
    if settings.selectedDevice.Some? {
      var success, _ := TrySelectedDeviceCapture(env, settings, settings.selectedDevice.value, filepath);
      if success {
        return Captured(filepath, "selected_device");
      }
      assert strategies[1..] == FallbackStrategies && works[1..] == FallbackResults(env, filepath);
    } else {
      assert strategies == FallbackStrategies && works == FallbackResults(env, filepath);
    }
    result := TryFallbackMethods(env, filepath);
  }

  /** Why `captureStill` rejects instead of resolving: the access check on the output folder threw. */
  datatype StillError = OutputFolderNotWritable

  /**
   * `captureStill(input)` at the moment whose ISO text is `isoTime`: the
   * capture chain for the templated path, once the output folder is found
   * writable.
   */
  method CaptureStill(env: Environment, settings: Settings, input: string, isoTime: string)
    returns (result: Result<CaptureResult, StillError>)
    ensures !env.writable(settings.outputPath) ==> result == Failure(OutputFolderNotWritable)
    ensures env.writable(settings.outputPath) ==>
      var filepath := CapturePath(settings.outputPath,
        CaptureFilename(settings.namingConvention, input, FileTimestamp(isoTime)));
      result == Success(CaptureOutcome(env, settings, filepath))
  {
    var timestamp := FileTimestamp(isoTime);
    var filename := CaptureFilename(settings.namingConvention, input, timestamp);
    var filepath := CapturePath(settings.outputPath, filename);
    if !env.writable(settings.outputPath) {
      return Failure(OutputFolderNotWritable);
    }
    var captured := TryCaptureMethods(env, settings, filepath);
    result := Success(captured);
  }
}
