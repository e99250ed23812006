# NostalgiaBoxConnect in Dafny

NostalgiaBoxConnect is an Electron desktop app. It drives a Blackmagic
Videohub router, grabs stills from an UltraStudio capture device with
ffmpeg, and stitches groups of 2 to 6 stills into one grid image. This
project models the logic behind those three jobs and proves what it
promises. External programs, the file system and the image library
become inputs.

- **Router** (`videohub.dfy`, `ip_address.dfy`)
  - `validateIP` is the regular expression, alternative by alternative. It
    is proved to accept exactly `localhost` and four dot-joined decimal
    octets of at most 255.
  - `setVideohubInput` checks the address first, then the one-based
    ranges. It then sends the zero-based routing block of the Videohub
    Ethernet protocol to port 9990. The block is proved to read back as
    the crosspoint it was built for.
- **Devices** (`device_list.dfy`)
  - `detectVideoDevices` tries the ffmpeg paths in order and keeps the
    first listing that is usable.
  - It then runs the section state machine of its `for` loop over the
    lines, as an imperative loop proved against a specification function.
  - A line is matched with `\[AVFoundation indev.*?\]\s+\[(\d+)\]\s+(.+)$`.
    The model follows how a JavaScript engine matches it: leftmost start,
    lazy `.*?`, backtracking `\s+`, and `$` without the multiline flag.
- **Capture** (`capture.dfy`, `fallback.dfy`)
  - `captureStill` fills the naming template.
  - It then runs the chain of capture methods: the selected device (which
    retries framerates), then device index, device name and first device.
    The first method that works wins.
  - Every method is an instance of one "first success wins" loop.
- **Stitching** (`image_processor.dfy`, `layout.dfy`, `output_name.dfy`)
  - `ImageProcessor` is a class with a first-in first-out queue and a
    `processing` flag. A stitch guards the group size, sorts the group in
    place by file name, lays it out on a fixed grid and names the output.
  - The queue's order and the grid's geometry are proved.
- **Processed log** (`processed_log.dfy`)
  - `ProcessedFilesLog` is a class around the lazily loaded map of
    processed groups.
  - Each group is keyed by a digest of its sorted, `|`-joined paths. The
    key is proved independent of path order and injective when no path
    contains `|`.

`text.dfy`, `paths.dfy` and `ordering.dfy` give JavaScript's and Node's
string, path and default-sort operations the meaning they have in the
code. `wrappers.dfy` holds `Option` and `Result`.

## Model

| member | source | states |
|---|---|---|
| IpAddress.OctetPatternMeaning | src/main.js:260 | Each octet alternative (`25[0-5]`, `2[0-4][0-9]`, `[01]?[0-9][0-9]?`) accepts exactly the strings of 1 to 3 digits whose value is at most 255, so `010` is accepted and `256` and `299` are rejected. |
| IpAddress.QuadPatternMeaning | src/main.js:260 | The anchored quad alternative accepts exactly the strings that are four such octets joined by dots. |
| IpAddress.LoopbackIsQuad | src/main.js:260 | The explicit `127.0.0.1` alternative is itself a dotted quad. |
| IpAddress.DefaultRouterIsQuad | src/main.js:260 | The explicit `10.101.130.101` alternative is itself a dotted quad. |
| IpAddress.ValidateIPMeaning | src/main.js:259-262 | `validateIP(ip)` holds iff `ip` is `localhost` or a dotted quad of decimal octets of at most 255. |
| Videohub.RoutingBlockRoundTrip | src/main.js:280-282 | The routing block for a zero-based output and input parses back to exactly that output and input. |
| Videohub.BuildRoutingRequest | src/main.js:268-284 | An invalid address fails with `InvalidAddress`, whatever the numbers. A valid address with input outside 1..6 or output outside 1..2 fails with `InvalidRange`. Success happens iff neither holds. On success the block starts with `VIDEO OUTPUT ROUTING:\r\n`, parses to (output−1, input−1), and the command pipes it to the router. |
| Videohub.SetVideohubInput | src/main.js:264-300 | Resolves iff the address is valid, both numbers are in range and the `printf … \| nc <ip> 9990` command runs without error. An invalid address rejects with `InvalidAddress`. A valid address with input outside 1..6 or output outside 1..2 rejects with `InvalidRange`. Any other rejection is `CommandFailed`: the command failed. |
| Fallback.FirstSuccessIndex | src/main.js:143-158 | The index returned is a candidate that succeeds and every earlier one fails. `None` means every candidate fails. |
| Fallback.TryInOrder | src/main.js:143-158 | The counter-driven retry returns the first success, and counts as attempts the winner and those before it, or all candidates. |
| DeviceList.NameStart | src/main.js:227 | The greedy `\s+` before `(.+)$` gives back characters until the rest of the line matches. The result is the widest such split, or none. |
| DeviceList.AfterBracket | src/main.js:227 | `\s+\[(\d+)\]\s+(.+)$` after the `]`: a result is a match, with the only digit group and the widest name split possible. `None` means no match exists. |
| DeviceList.LazyBracket | src/main.js:227 | The lazy `.*?\]` stops at the first `]` after which the rest matches. It never crosses a line terminator. `None` means no such `]` exists. |
| DeviceList.SearchFrom | src/main.js:227 | The match starts at the leftmost `[AVFoundation indev` from which the pattern matches. |
| DeviceList.MatchDeviceLine | src/main.js:227 | Whatever it reports is a match of the whole pattern. |
| DeviceList.MatchDeviceLineComplete | src/main.js:227 | Whenever any match exists, one is reported. The reported match starts no later, uses no later `]`, and at the same `]` has the same digits and the longest white space before the name. |
| DeviceList.LineDevice | src/main.js:227-235 | A line yields a device iff it matches. The device's index is the value of the digit group, its name is the trimmed name group, `isBlackmagic` holds iff the lower-cased name contains `blackmagic`, and it carries no error. |
| DeviceList.Classify | src/main.js:215-236 | A device line yields a real device: index ≥ 0 and no error. |
| DeviceList.ParseDeviceList | src/main.js:209-239 | The `for` loop with its `inVideoSection` flag returns exactly `ListedDevices(stderr)`. |
| DeviceList.ScanMembers | src/main.js:211-238 | A device is listed iff it comes from a matching line that lies after a video-devices header and before every audio-devices header. |
| DeviceList.DetectVideoDevices | src/main.js:165-257 | The path loop plus the parse returns exactly `DetectedDevices(listing)`. |
| DeviceList.DetectedDevicesShape | src/main.js:165-257 | The list is never empty. It is the single "FFmpeg not installed" entry iff no path gives a usable listing (no error, or exit code 1 or 251). Otherwise it is the single "No video devices detected" entry, or real devices only, each with index ≥ 0 and no error. |
| Text.TrimStart | src/main.js:230 | Cuts exactly the leading white space: the result is a suffix, what was cut is white space, and the result does not start with white space. |
| Text.TrimEnd | src/main.js:230 | Cuts exactly the trailing white space, symmetrically. |
| Text.Trim | src/main.js:230 | The trimmed name is a slice of the input with only white space outside it, and it neither starts nor ends with white space. |
| Text.Split | src/main.js:211 | `split('\n')` gives at least one part, and no part holds a `\n`. |
| Text.JoinSplit | src/main.js:211 | Joining the lines back with `\n` gives the listing unchanged, so no text is lost or added by the split. |
| Text.SplitJoin | src/processedFilesLog.js:27 | Splitting a `\|`-joined key gives back its parts when no part contains `\|`. |
| Paths.BasenameOfJoin | src/imageProcessor.js:136 | `path.basename(path.join(dir, name))` is `name` when `name` is a single segment. |
| Paths.DirnameOfJoin | src/imageProcessor.js:129 | `path.dirname(path.join(dir, name))` is `dir` when `dir` has no trailing `/`. |
| Paths.StemOfFileName | src/imageProcessor.js:78 | A single-dot extension is what `path.extname` returns, and `path.basename(p, ext)` gives the name without it. |
| Ordering.SortStrings | src/processedFilesLog.js:26 | The default sort returns an ascending permutation of the paths. |
| Ordering.SortedUnique | src/processedFilesLog.js:26 | Two ascending sequences with the same elements are equal, so the sort's result is determined by the paths alone. |
| Ordering.SortPermutationInvariant | src/processedFilesLog.js:26 | Any reordering of the paths sorts to the same sequence. |
| Capture.DefaultSettings | src/main.js:10-16 | Before any settings are loaded, captures go to the working directory, the naming convention is `capture_{input}_{timestamp}`, no device is selected, the default router address passes `validateIP`, and the framerates tried are exactly the standard ones in their order. |
| Capture.FileTimestamp | src/main.js:308 | Every `:` and `.` becomes `-`. Every other character and the length are unchanged. |
| Capture.DefaultCaptureFilename | src/main.js:309-311 | Filling the default convention with an input free of `{` gives `capture_<input>_<timestamp>`, whatever the timestamp holds. Only the first `{input}` and then the first `{timestamp}` are replaced. |
| Capture.NumberedCaptureFilename | src/main.js:309-311 | A numeric input fills in as its decimal text. |
| Capture.CapturePathParts | src/main.js:312 | The capture path's basename is the file name plus `.png`, its extension is `.png`, its stem is the file name, and its folder is the output folder. |
| Capture.WorkingFfmpeg | src/main.js:139-163 | The ffmpeg returned is the first path whose `-version` runs. `None` means none runs. |
| Capture.FindWorkingFFmpeg | src/main.js:139-163 | The `tryPath` loop returns exactly `WorkingFfmpeg`. |
| Capture.FirstPosition | src/main.js:393 | `indexOf` finds a position holding the value with no earlier copy. |
| Capture.KeepFirstOccurrences | src/main.js:393 | `filter((v, i, a) => a.indexOf(v) === i)` keeps the same values, each once, in the order of their first occurrence in the input. |
| Capture.FramerateCandidates | src/main.js:392-393 | The detected framerate (30 when unset or 0) comes first. Then come the standard rates 30, 29.97, 24, 23.98 in that order, leaving out the detected one, so none appears twice. |
| Capture.FramerateDefault | src/main.js:392-393 | With no detected rate the list is exactly the standard rates. |
| Capture.FramerateDetected | src/main.js:392-393 | A detected 25 is tried before all the standard rates. |
| Capture.FramerateDetectedStandard | src/main.js:392-393 | A detected 24 gives 24, 30, 29.97, 23.98: it moves to the front and is not tried again. |
| Capture.SelectedDeviceMeaning | src/main.js:375-436 | The selected-device method succeeds iff an ffmpeg works and some candidate framerate leaves a non-empty file. |
| Capture.TrySelectedDeviceCapture | src/main.js:375-436 | The `framerateIndex++` loop succeeds as specified. The rates it tries are a prefix of the candidates. Nothing is tried without a working ffmpeg. A failure with one tried every candidate. On success the last rate tried left a non-empty file and every earlier one did not. |
| Capture.FirstIndexedEntry | src/main.js:458-462 | Finds the leftmost match of `\[(\d+)\] (.+)`: a result is a match with nothing earlier, and `None` means there is no match. |
| Capture.DeviceIndexCaptures | src/main.js:438-495 | The device-index method can succeed only when an ffmpeg works and its listing is usable. |
| Capture.DeviceIndexMeaning | src/main.js:438-495 | The device-index method succeeds iff an ffmpeg works, its listing is usable, and the 30 fps capture of the digits of the leftmost `[n] name` entry leaves a non-empty file. |
| Capture.TryDeviceNameCapture | src/main.js:497-541 | The `tried++` loop over the five names succeeds iff an ffmpeg works and some name's capture ends without error with a file present. |
| Capture.HasZeroEntry | src/main.js:560 | Holds iff `\[0\] (.+)` matches somewhere. |
| Capture.FirstDeviceCaptures | src/main.js:543-593 | The first-device method can succeed only when an ffmpeg works. |
| Capture.FirstDeviceMeaning | src/main.js:543-593 | The first-device method succeeds iff an ffmpeg works, its listing is usable and has a `[0] name` entry, and the 30 fps capture of device `0` leaves a non-empty file. |
| Capture.Chain | src/main.js:324-373 | The result is the first strategy that works, reported with its method tag and the file path. It is the fixed "All capture methods failed" error iff none works. |
| Capture.ChainOfFallbacks | src/main.js:345-373 | For the fallbacks the chain reads: device index, else device name, else first device, else the fixed error. |
| Capture.TryFallbackMethods | src/main.js:345-373 | The nested callbacks give exactly the chain of the three fallbacks. |
| Capture.TryCaptureMethods | src/main.js:324-343 | The selected device, when one is selected, then the fallbacks: exactly `CaptureOutcome`. |
| Capture.CaptureStill | src/main.js:302-322 | Rejects when the output folder is not writable. Otherwise it resolves with the outcome of the chain for the templated `.png` path in the output folder. |
| Layout.GetGridLayout | src/imageProcessor.js:161-170 | A layout exists iff the count is 2 to 6. It then has exactly that many positions, each cell inside the grid, and no two overlapping. The grid has fewer than twice as many cells as images. |
| Layout.LayoutsCentred | src/imageProcessor.js:163-167 | Every row, including the half-offset bottom rows for 3 and 5 images, is its own mirror image about the grid's centre. |
| Layout.MaxWidth | src/imageProcessor.js:173 | The largest width: no image is wider, and some image is that wide. |
| Layout.MaxHeight | src/imageProcessor.js:174 | The largest height: no image is taller, and some image is that tall. |
| Layout.CreateStitchedImage | src/imageProcessor.js:172-193 | The canvas is max width × cols by max height × rows. There is one placement per image. The background is black for an odd count and white for an even one. |
| Layout.ImagesInsideCanvas | src/imageProcessor.js:176-193 | On a canvas of `max width × cols` by `max height × rows`, every image placed at `floor(x × cellWidth)`, `y × cellHeight` lies wholly inside. |
| Layout.ImagesDisjoint | src/imageProcessor.js:176-193 | No two placed images overlap. |
| OutputName.FirstDate | src/imageProcessor.js:81 | `/(\d{8})/` matches at the first position where eight digits run, or nowhere. |
| OutputName.MarkedNameInverse | src/imageProcessor.js:80-91 | `_processed` is the only change. Cutting it out gives the stem back. It sits right after the first eight-digit run, or at the end when there is none. |
| OutputName.MarkedNameKeepsDate | src/imageProcessor.js:80-87 | The first date of the new name is the first date of the stem, at the same place. |
| OutputName.OutputNameCases | src/imageProcessor.js:59-92 | An empty group gives `stitched`. A meaningful folder name (not empty, `.`, `..`, `Desktop`, `Pictures`, `Documents`, nor containing `Processed`) is used as it is. Otherwise the stem carries the marker. |
| OutputName.OutputNameIsFileName | src/imageProcessor.js:59-92 | The name is never empty and has no `/`. |
| ProcessedLog.GroupKeyPermutation | src/processedFilesLog.js:25-29 | The same paths in any order give the same key, hence the same hash. |
| ProcessedLog.GroupKeyInjective | src/processedFilesLog.js:26-27 | For non-empty groups whose paths contain no `\|`, equal keys mean the same paths with the same counts. |
| ProcessedLog.GroupKeyCollision | src/processedFilesLog.js:27 | Without that restriction, `["a\|b"]` and `["a", "b"]` share a key. |
| ProcessedLog.ProcessedFilesLog.constructor | src/processedFilesLog.js:6-10 | The log file is `.processed_groups.json` inside the watched folder. Nothing is loaded yet. |
| ProcessedLog.ProcessedFilesLog.Load | src/processedFilesLog.js:12-19 | Leaves the stored groups in memory, or no groups when the file cannot be read or parsed. |
| ProcessedLog.ProcessedFilesLog.IsGroupProcessed | src/processedFilesLog.js:31-35 | Loads only when nothing is in memory. Answers whether the group's hash is a key of the groups. |
| ProcessedLog.ProcessedFilesLog.MarkAsProcessed | src/processedFilesLog.js:37-46 | Loads only when nothing is in memory. Then inserts or overwrites the group's entry (timestamp, paths, output) and keeps every other entry. |
| ProcessedLog.MarkedPermutationProcessed | src/processedFilesLog.js:37-46 | After marking a group, any reordering of its paths is processed. |
| ProcessedLog.MarkingLeavesOthers | src/processedFilesLog.js:40-44 | With a digest that tells texts apart, marking one group does not change whether another, different group is processed. |
| ImageProcessing.InsertionSort | src/imageProcessor.js:102-106 | Sorts an array in place by a total preorder. The result is ordered and a permutation of the input. |
| ImageProcessing.SortByName | src/imageProcessor.js:102-106 | The group is put in place into ascending order of lower-cased file name, and it is a permutation of the original. |
| ImageProcessing.Stitch | src/imageProcessor.js:94-159 | A group of fewer than 2 or more than 6 images is skipped. Otherwise it is stitched iff every image can be read and the output can be written, and then to `OutputPath`. |
| ImageProcessing.StitchedCanvas | src/imageProcessor.js:113-122 | In a stitched group every image lies inside the canvas, no two overlap, and the background follows the parity of the count. |
| ImageProcessing.OutputPathParts | src/imageProcessor.js:124-136 | The output file is the generated name plus `.jpg`, inside the chosen output folder or else `<first image's folder>/Processed`. |
| ImageProcessing.ImageProcessor.constructor | src/imageProcessor.js:7-18 | Empty queue and idle. A processed log exists iff a non-empty watch folder is given. |
| ImageProcessing.ImageProcessor.SetOutputFolder | src/imageProcessor.js:20-22 | Changes the output folder only. |
| ImageProcessing.ImageProcessor.SetWatchFolder | src/imageProcessor.js:24-27 | Sets the folder and a fresh, unloaded log for it. |
| ImageProcessing.ImageProcessor.IsGroupProcessed | src/imageProcessor.js:29-32 | False without a log. Otherwise it is the log's answer, after its lazy load. |
| ImageProcessing.ImageProcessor.AddToQueue | src/imageProcessor.js:34-39 | Appends the group to the history. While busy it joins the tail of the queue. When idle its stitch starts at once: sorted if it has 2 to 6 images, untouched otherwise. Groups leave in the order they joined (`Valid`). |
| ImageProcessing.ImageProcessor.ProcessQueue | src/imageProcessor.js:41-48 | An empty queue makes the processor idle. Otherwise the head is taken, becomes the current group and is begun, and the rest of the queue keeps its order. |
| ImageProcessing.ImageProcessor.CompleteStitch | src/imageProcessor.js:49-56 | The current stitch settles as `Stitch` says. A stitched group is recorded in the log and nothing else is. The next group starts whether or not this one failed. |

## Left out

- **I/O and foreign code:** running ffmpeg, `nc` and `-version` is not
  modelled, and neither are `existsSync`, `statSync`, `unlinkSync`,
  `mkdir`, `readFile`/`writeFile`, `sharp` decoding and encoding, and MD5.
  Each is an input: an `Environment` or `StitchIo` of outcomes, a
  `StoredLog` for the log file, and a `digest` function.
- **Capture commands:** these are structured values (`AtRate`,
  `ByName`), not command strings. Printing a `real` framerate as
  JavaScript does is not modelled.
  - Each `Environment` outcome is a function of its command, so running
    the same command twice gives the same outcome. The program repeats
    commands: `findWorkingFFmpeg` runs again in every capture method, and
    the device listing runs again in the device-index and first-device
    methods. The 30 fps capture of device `0` can also run in up to three
    methods. A command that fails once and then works when retried is
    not modelled.
  - The file found after each attempt is part of that attempt's outcome,
    so the `unlinkSync` of an empty file and files left by earlier
    attempts are not modelled separately.
- **JSON save:** the save after `markAsProcessed` is taken to succeed.
  A failing write, which would make the stitch fail after the in-memory
  update, is not modelled.
  - Log files that parse but lack a `groups` object, or hold falsy
    entries, are not modelled.
- **Timing and concurrency:** the `setTimeout` delays and the `exec`
  timeouts are not modelled.
  - A stitch is modelled in two steps: its synchronous start, then its
    completion. Interleavings inside one stitch are not modelled, and
    neither are two lazy loads racing in the log.
- **Electron plumbing:** the window, the IPC handlers that only assign
  settings, settings persistence (`loadSettings`/`saveSettings`), the
  logger, `sendStatusUpdate`, `src/preload.js` and `src/renderer.js` are
  not modelled.
- **Framerates:** these are `real` values. The `||` default, the order
  and the duplicate removal are modelled. Floating-point equality is not.
- ImageProcessing.SortByName: compares lower-cased file names
  character by character instead of by `localeCompare`. Lower-casing
  covers ASCII letters only. Characters are code points, not UTF-16
  units. The stability of the JavaScript sort (equal names keep their
  order) is not stated.
- Ordering.SortStrings: compares code points where JavaScript's default
  sort compares UTF-16 code units. The two orders differ only beyond the
  Basic Multilingual Plane.
- Capture.CaptureFilename: `$` patterns in a replacement text are not
  interpreted. The texts substituted, an ISO timestamp and `current` or
  a number, contain no `$`.
- Paths.Join: the result is not normalised. `.` and `..` segments are
  kept, and repeated slashes are not collapsed: `Join("a//", "b")` is
  `a//b`, where Node's `path.join` gives `a/b`. The functions model the
  POSIX flavour of Node's `path` only.
- Layout.CreateStitchedImage: positions are kept in half cells, so
  `Math.floor(0.5 × w)` is the exact integer `(1 × w) / 2`. Floating
  point is not modelled.
- DeviceList.LineDevice: the digit group's value is exact. `parseInt`
  loses precision beyond 2^53, which is not modelled.
- DeviceList.LineDevice: `isBlackmagic` lower-cases ASCII letters only.
  `toLowerCase` also maps other characters, such as the KELVIN SIGN
  U+212A to `k`. So a name spelt with one counts as Blackmagic in the
  program but not in the model.
- Videohub.BuildRoutingRequest: input and output are integers.
  Fractional numbers from the window are not modelled.
- ImageProcessing.ImageProcessor.ProcessQueue: the queued group is an
  array, as in the source. A group queued twice is the same array both
  times.
