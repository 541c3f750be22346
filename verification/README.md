# StrayConnected landing page: download statistics, platform detection and download links

A Dafny model of the non-presentational logic of the StrayConnected landing
page script (`script.js`):

- the **download-statistics store**: a module-level record
  `{android, ios, total}` that starts at zero, is loaded from the browser
  storage key `strayConnectedDownloads` at start-up and on every
  `getDownloadStats()`, is bumped on every download click and written back in
  full (`StatsStore`, with the record itself in `DownloadStats`);
- the JSON text of that record, as `JSON.stringify` writes it (compact for
  storage, indented by two spaces for the export file) and as `JSON.parse`
  reads it back (`StatsJson`);
- **`detectPlatform`**, the user-agent classifier (`PlatformDetection`);
- **`getDownloadUrl`**, the suggested file name of the download, and the
  `downloadApp` click handler that ties the store and the link together
  (`Download`).

Everything is a pure function over immutable values. The store is a value
`Store(mem, slot, writable)`: `mem` is the in-memory record, `slot` is the
storage slot (`Absent`, or the text held there), and `writable` says whether
the browser currently accepts writes to storage. Operations return an
`Outcome`: `Ok(store, value)`, or `Threw(store, fault)` when an exception
escapes, carrying the state reached before it was thrown (JavaScript does not
undo assignments made before a throw, and an exception in one event handler
does not stop the page).

What the script does, as opposed to what one might expect of it:

- Unreadable saved text is not a fall-back to zeros. `JSON.parse` on line 87
  is unguarded, so `Load` and `GetStats` throw `SyntaxError` and leave the
  record as it was. At start-up (line 97) this skips the statements after
  that line. The function declarations, including `downloadApp`, are already
  in place, so the first download overwrites the unreadable text
  (`CorruptSlotRecovered`).
- Nothing saved, or the empty string saved, leaves the in-memory record
  untouched (the `if (saved)` test on line 86). It is not reset.
- `setItem` on line 93 is unguarded. When the browser refuses the write, the
  counters have already been incremented (lines 106-107). The exception then
  ends `downloadApp` before the link is clicked, so no download starts and
  the in-memory record runs ahead of the stored one. One might expect the
  failure to be caught and the download to go ahead; the code does neither
  (`DownloadApp`: `Aborted` exactly when storage refuses the write).

The main results:

- `Decode(Render(s, …)) == Some(s)` for every record and every whitespace
  layout. So the stored text reads back as the saved record
  (`Stringify`), and the export file reads back as the exported record
  (`StringifyPretty`).
- `RecordDownload` adds one to the platform's counter and one to the total,
  leaves the other counter alone, and keeps `total == android + ios`. With
  storage accepting writes, the slot then reads back as exactly the in-memory
  record (write-through).
- `total == android + ios` holds after start-up and after any run of page
  events, provided every text the model reads from the slot as a record is
  consistent (`InvariantAlways`; see "Left out" for what this admits). Any run of downloads
  counts exactly (`DownloadsCounted`).
- `detectPlatform` is characterised against reference definitions of "occurs
  as a substring" and "occurs ignoring ASCII case". Without the `u` flag,
  `/android/i` folds case by upper-casing and never maps a non-ASCII
  character onto an ASCII one, so ASCII folding is exact for this pattern.

## Model

| member | source | states |
|---|---|---|
| `DownloadStats.Bump` | script.js:106-107 | one more for the platform and for the total; the other platform's counter is unchanged; `total == android + ios` is preserved |
| `StatsJson.DecodeRender` | script.js:87-93 | for every record and every JSON-whitespace layout, parsing what `JSON.stringify` wrote gives the record back |
| `StatsJson.Stringify` | script.js:93 | the compact text written to storage is non-empty and parses back to the saved record |
| `StatsJson.StringifyPretty` | script.js:265 | the indented export text parses back to the exported record |
| `StatsJson.Decode` | script.js:87 | only text that is a JSON object (a `{` after any whitespace) reads as a record; the empty string does not |
| `StatsJson.ParseNatOfDigits` | script.js:87-93 | a counter printed in decimal parses back to the same number, stopping at the next non-digit |
| `StatsStore.Load` | script.js:84-89 | storage is never changed; nothing or "" saved keeps the record; a saved record replaces it entirely; unreadable text throws `SyntaxError` with nothing changed |
| `StatsStore.Save` | script.js:92-94 | when the write is accepted the slot reads back as exactly the in-memory record; when refused it throws and nothing changes; the record itself is never changed |
| `StatsStore.RecordDownload` | script.js:106-108 | the platform counter and the total each grow by one, the other counter does not move, the invariant is kept; write-through on success; on a refused write the counters still moved and the slot is stale |
| `StatsStore.GetStats` | script.js:257-260 | returns the saved record if there is one, else the in-memory record; throws on unreadable saved text; storage is never changed |
| `StatsStore.ExportStats` | script.js:263-276 | the file's text is the indented JSON of the record `getDownloadStats` returns and parses back to it; the type is JSON; the name is `ExportFileName` of the current time; it fails exactly when `getDownloadStats` does |
| `StatsStore.ExportFileName` | script.js:271 | `download-stats-<date>.json`, where the date is the longest prefix of the timestamp without a `T`, followed in the timestamp by a `T` unless it is all of it |
| `StatsStore.ExportFileNameOfDate` | script.js:271 | the export file is named `download-stats-<date>.json` for the date part of an ISO timestamp |
| `StatsStore.Boot` | script.js:77-97 | start-up gives the saved record if there is one, the zero record otherwise, and throws only on unreadable saved text, with `SyntaxError` and the zero record kept |
| `StatsStore.CorruptSlotRecovered` | script.js:84-108 | with unreadable saved text, start-up throws and keeps the zero record; the next download with writes accepted saves a consistent record counted from zero |
| `StatsStore.SaveThenLoad` | script.js:84-94 | a save that goes through followed by a load leaves the store as the save left it |
| `StatsStore.LoadReplaces` | script.js:86-87 | whatever the in-memory record was, loading a saved record yields exactly that record |
| `StatsStore.LoadNothingKeeps` | script.js:85-86 | with nothing or the empty string saved, loading keeps the in-memory record |
| `StatsStore.LoadIdempotent` | script.js:84-89 | for every store, loading twice is the same as loading once, including when unreadable saved text makes both loads throw `SyntaxError` with nothing changed |
| `StatsStore.GetStatsIdempotent` | script.js:257-260 | for every store, two `getDownloadStats()` calls in a row give the same outcome and leave the same store, whether they return a record or both throw on unreadable saved text |
| `StatsStore.RecordThenGetStats` | script.js:106-108 | after a recorded download with writes accepted, `getDownloadStats()` returns the in-memory record and changes nothing |
| `StatsStore.StepKeepsGood` | script.js:77-108 | every page event, and a change in whether storage accepts writes, keeps `total == android + ios` in memory and in any record storage holds |
| `StatsStore.RunKeepsGood` | script.js:77-108 | the same over any run of events, including runs where handlers throw |
| `StatsStore.BootGood` | script.js:77-97 | start-up from a slot in which every text the model reads as a record is consistent gives a good state |
| `StatsStore.InvariantAlways` | script.js:77-108 | after start-up from such a slot and any run of events, `total == android + ios` |
| `StatsStore.DownloadsCounted` | script.js:106-107 | any run of downloads adds, per platform, the number of its downloads and, to the total, the number of downloads, whether or not writes are accepted |
| `StatsStore.DownloadsWriteThrough` | script.js:92-108 | after one or more downloads with writes accepted, storage holds exactly the in-memory record |
| `StatsStore.ThreeAndroidTwoIOS` | script.js:77-107 | three Android and two iOS downloads from a fresh page give `{android: 3, ios: 2, total: 5}` |
| `StatsStore.ReloadAfterDownload` | script.js:84-108 | one Android download, then a page reload, gives `{android: 1, ios: 0, total: 1}` |
| `Text.Contains` | script.js:228 | the left-to-right literal search succeeds exactly when the pattern occurs at some offset |
| `Text.BeforeFirst` | script.js:271 | `split('T')[0]`: the longest prefix with no `T`, followed by a `T` unless it is the whole string |
| `PlatformDetection.ContainsIgnoreCase` | script.js:224 | `/android/i` matches exactly when the pattern occurs at some offset with ASCII letters compared regardless of case |
| `PlatformDetection.DetectPlatform` | script.js:221-233 | the answer is one of android, ios or desktop; android exactly when "android" occurs in any case; ios exactly when it does not, an iPad/iPhone/iPod name occurs case-sensitively and `MSStream` is absent |
| `PlatformDetection.AndroidInAnyCase` | script.js:224-226 | any spelling of "android" in the user agent gives android, whatever else it contains |
| `PlatformDetection.LowercaseIPhoneIsDesktop` | script.js:228-232 | "iphone" in lower case is not recognised as an Apple device |
| `PlatformDetection.MSStreamNeverIOS` | script.js:228-230 | with `MSStream` present the answer is never ios |
| `Download.DownloadUrl` | script.js:137-145 | android gets `./downloads/StrayConnected.apk`, ios gets `./downloads/StrayConnected.ipa`, and every other string gets none |
| `Download.FileName` | script.js:123 | `StrayConnected_`, then the platform, then `.apk` for android and `.ipa` for any other platform |
| `Download.FileNameRoundTrip` | script.js:123 | the platform can be read back from the suggested file name |
| `Download.FileNameInjective` | script.js:123 | different platform strings never get the same file name |
| `Download.UrlMatchesFileName` | script.js:123-145 | for both platforms the URL and the suggested file name end in the same extension (`.apk` for android, `.ipa` for ios) |
| `Download.DownloadApp` | script.js:100-134 | the store changes as `RecordDownload` says; the download is aborted exactly when storage refuses the write; otherwise the link to the platform's URL with its file name is clicked |

## Left out

- Smooth scrolling, the header shadow, the feature-card fade-in, the modal's show/hide and its message texts, keyboard shortcuts and the console greeting are DOM wiring with no state of their own.
- `animateCounter` works in floating point on an interval timer.
- The 2-second preparation delay in `downloadApp` and overlapping clicks are not modelled. Each click is handled to completion before the next.
- `trackDownload` reads the navigator and the screen, takes the clock and logs to the console. Its network call is commented out.
- The export's `Blob`, object URL and link click are left out. The current time is a parameter (`isoNow`).
- Storage is one slot under one key. Reads never fail: `getItem` throwing when storage is disabled is not modelled, only refused writes are (`writable`). The browser may start or stop accepting writes between events (`SetWritable`).
- StatsStore.GetStats returns a copy of the record. `getDownloadStats` (line 259) returns the live module-level `downloadStats` object itself, and `exportDownloadStats` (line 264) uses that same object. A caller that writes to it, for instance `getDownloadStats().total = 0` from the console through the `window` entry points of lines 306-307, changes the in-memory record, and the next download saves it, so `total == android + ios` can fail. Writes to the returned object are not modelled; `RunKeepsGood` and `InvariantAlways` hold only for callers that leave it unchanged.
- Another tab writing the key between events is not modelled as an event. Any text in the slot is handled by `Load`.
- StatsStore.InvariantAlways: its requires `SlotConsistent` asks only that a slot the model reads as a record hold a consistent one. It holds vacuously for every text `StatsJson.Decode` rejects, and that includes JSON which the script would load as-is, such as `{}` or `{"ios":1,"android":1,"total":5}`. For such a slot the model throws at start-up and keeps the zero record, whereas the script would load an inconsistent or incomplete record. So the invariant is proved only for storage that holds nothing, text `JSON.parse` rejects, or text written by the script's own `JSON.stringify`.
- StatsJson.Decode accepts only objects with `android`, `ios` and `total` in that order, holding non-negative integers without leading zeros. `JSON.parse` also accepts, and line 87 loads as-is, JSON values that are not such a record: `null`, `{}`, `[]`, numbers, strings, objects with missing, extra or reordered keys, and negative or fractional counters. The model treats all of them as unreadable. In the script, `{}` or missing keys give `NaN` counters after the next download, and `null` makes every later download throw a `TypeError` at line 106.
- StatsStore.RecordDownload: counters are unbounded naturals. JavaScript numbers stop counting exactly above 2^53, and `JSON.stringify` switches to exponent form from 10^21. Neither is reachable by clicking.
- Download.DownloadApp takes a `Platform`, not any string. With another string, `downloadStats[platform]++` would add a `NaN` property, and the page's buttons are not part of this model. The modal's "Android"/"iOS" label is presentation.
- Download.DownloadUrl: property names inherited by a JavaScript object literal, such as "constructor", would give a truthy non-URL value. They are not modelled.
- PlatformDetection.DetectPlatform takes the user-agent string directly. The `navigator.userAgent || navigator.vendor || window.opera` fall-back is not modelled.
- At start-up, a throwing `loadDownloadStats()` skips only the statements after line 97: the modal's close handlers, the card animation, the platform highlight, the keyboard shortcuts and the `window.getDownloadStats`/`window.exportDownloadStats` assignments. Function declarations are created before any statement runs, so `downloadApp`, `getDownloadStats` and `exportDownloadStats` remain callable. The model follows this: `Run` continues from the store `Boot` reached.
