# IPFS Tools for Android: a verified model of its core

IPFS Tools runs an IPFS daemon (`go-ipfs`) on an Android device only while
the node is in use. This project models the app's core in Dafny and proves
properties of that model:

- **StreamSearcher** (`stream_searcher.dfy`, module `StreamSearching`) is the
  byte-stream pattern matcher. It watches the daemon's output for the
  markers "Daemon is ready" and "BlockService GetBlock:". The class keeps the
  source's single mutable counter `matchedCount`. Its methods are proved
  against a pure fold over the bytes fed, and a ghost history of those bytes
  states what a match means.
- **BackgroundService** (`background_service.dfy`, module `Supervision`) is
  the service that supervises the daemon, together with its companion object
  (`ServiceRegistry`). It covers:
  - coalescing `start` calls into pending promises and resolving them in
    `onCreate`;
  - the events of the stdout and stderr pumps and of the process exit;
  - the power receiver;
  - the status timer, with the idle shutdown and the bandwidth poll;
  - the state shown by the notification.

  Each callback or background event is a method that runs to completion, and
  the wall-clock time `now` is a parameter. `stopSelf()` is recorded in a
  `stopRequested` flag.
- **OpenURLActivity** (`open_url.dfy`, module `OpenUrl`) turns an incoming
  URI's scheme, host and path segments into the gateway path it opens, or
  into the "Invalid link" error.
- **MainActivity** (`main_activity.dfy`, module `MainScreen`) covers:
  - the session-duration text and stats lines of the About dialog, using
    Kotlin's truncating `Long` division and `Long.toString`;
  - the in-place rebuild of the four-row tool menu;
  - the tap and long-press handlers that read the menu.

`optional.dfy` holds the `Option` type used for Kotlin's nullable values.

Points of the code's behaviour that the model keeps as they are:

- Waiting callers are resolved in `onCreate`, right after `startNode()`,
  without waiting for the "Daemon is ready" marker
  (BackgroundService.kt:142-149; `Supervision.BackgroundService.OnCreate`).
  Nothing ever rejects a start promise: a spawn failure is not handled.
- A byte that breaks a partial match resets the count to 0 and is not
  retried as the start of a new match (StreamSearcher.kt:56-60). A marker
  right after a false start, such as "DDaemon is ready", is therefore missed
  (`StreamSearching.FalseStartMissed`).
- Splitting a stream into chunks does not change where the first match is,
  or the count before it (`StreamSearching.FirstMatchAppend`,
  `StreamSearching.RunAppend`). After a match, `add(data, offset, length)`
  returns at once and the rest of the chunk is never fed
  (StreamSearcher.kt:30-31; `StreamSearching.Consumed`). So matches after
  the first can depend on how the stream is chunked: with the pattern
  [1, 2], the chunks [1, 2, 1] and [2] report one match, and the chunks
  [1, 2] and [1, 2] report two (`StreamSearching.LaterMatchesDependOnChunking`).
- The single-segment link tests use `Regex.fromLiteral`, which matches the
  pattern text literally. A segment therefore matches only when it equals
  that text (`OpenUrl.SingleSegmentOnlyLiteral`, `OpenUrl.BareHashRejected`).

## Model

| member | source | states |
|---|---|---|
| StreamSearching.Step | app/src/main/java/com/jjv360/ipfsandroid/StreamSearcher.kt:39-66 | The count after one byte stays below the pattern length. A matching byte that does not finish the pattern moves the count from `c` to `c + 1`. A non-zero count can only arise that way. A mismatch resets the count to 0, and so does a completed match. |
| StreamSearching.Completes | app/src/main/java/com/jjv360/ipfsandroid/StreamSearcher.kt:42-52 | A byte completes the pattern when it equals the expected byte and is the pattern's last one. This is the case in which `add(byte)` returns true. |
| StreamSearching.Run | app/src/main/java/com/jjv360/ipfsandroid/StreamSearcher.kt:39-66 | The count after a sequence of single-byte feeds is below the pattern length and grows by at most one per byte. |
| StreamSearching.FirstMatch | app/src/main/java/com/jjv360/ipfsandroid/StreamSearcher.kt:26-36 | The position at which a chunk first completes the pattern lies inside the chunk. |
| StreamSearching.Consumed | app/src/main/java/com/jjv360/ipfsandroid/StreamSearcher.kt:29-34 | The bytes one range call feeds are a prefix of the range. They are the whole range when nothing completes. Otherwise they end at the first completing byte. |
| StreamSearching.ConsumedKeepsFirstMatch | app/src/main/java/com/jjv360/ipfsandroid/StreamSearcher.kt:29-34 | The bytes one range call feeds hold the same first match as the whole range. |
| StreamSearching.Slice | app/src/main/java/com/jjv360/ipfsandroid/StreamSearcher.kt:29 | The bytes `offset until offset+length` in order; empty when `length <= 0`. |
| StreamSearching.RunAppend | app/src/main/java/com/jjv360/ipfsandroid/StreamSearcher.kt:26-66 | Feeding `a + b` leaves the same count as feeding `a` and then `b`. |
| StreamSearching.FirstMatchAppend | app/src/main/java/com/jjv360/ipfsandroid/StreamSearcher.kt:26-66 | Chunking does not change the first match. The first match in `a + b` is the first match in `a`, or else the first match in `b` (started from the count `a` leaves) shifted by `|a|`. |
| StreamSearching.FirstMatchSound | app/src/main/java/com/jjv360/ipfsandroid/StreamSearcher.kt:26-36 | At the reported position the byte completes the pattern, and no earlier byte does. |
| StreamSearching.FirstMatchComplete | app/src/main/java/com/jjv360/ipfsandroid/StreamSearcher.kt:26-36 | A byte that completes the pattern with no completion before it is the reported position. |
| StreamSearching.FirstMatchIsFirst | app/src/main/java/com/jjv360/ipfsandroid/StreamSearcher.kt:26-36 | Both directions: position `i` is reported exactly when byte `i` completes the pattern and no earlier byte does. |
| StreamSearching.FirstMatchCompletes | app/src/main/java/com/jjv360/ipfsandroid/StreamSearcher.kt:26-36 | The reported byte completes the pattern from the count reached just before it. |
| StreamSearching.CountIsSuffix | app/src/main/java/com/jjv360/ipfsandroid/StreamSearcher.kt:42-61 | Between calls, the last `matchedCount` bytes fed are the first `matchedCount` bytes of the pattern. |
| StreamSearching.CompletesSound | app/src/main/java/com/jjv360/ipfsandroid/StreamSearcher.kt:39-53 | When a byte completes a match, the last `|pattern|` bytes fed, that byte included, are exactly the pattern. |
| StreamSearching.MatchSound | app/src/main/java/com/jjv360/ipfsandroid/StreamSearcher.kt:26-66 | For a fresh searcher, a match reported at `i` means bytes `i+1-|p| .. i` of the chunk are the pattern. |
| StreamSearching.NoMatchInShortInput | app/src/main/java/com/jjv360/ipfsandroid/StreamSearcher.kt:42-53 | Fewer bytes than the rest of the pattern can never complete a match. |
| StreamSearching.FindsRestOfPattern | app/src/main/java/com/jjv360/ipfsandroid/StreamSearcher.kt:42-53 | From any count `c`, feeding the remaining pattern bytes completes the match at their last byte. |
| StreamSearching.FalseStartMissed | app/src/main/java/com/jjv360/ipfsandroid/StreamSearcher.kt:56-60 | A mismatching byte is not compared with `pattern[0]`. If the pattern's first two bytes differ, a stream made of its first byte followed by the whole pattern has no match. |
| StreamSearching.ReadyMarkerMissedAfterFalseStart | app/src/main/java/com/jjv360/ipfsandroid/StreamSearcher.kt:56-60 | "DDaemon is ready" is not recognised as containing "Daemon is ready". |
| StreamSearching.LaterMatchesDependOnChunking | app/src/main/java/com/jjv360/ipfsandroid/StreamSearcher.kt:29-32 | With pattern [1, 2], the chunks [1, 2, 1] then [2] give one match, because the byte after the match is dropped. The chunks [1, 2] then [1, 2] give two. |
| StreamSearching.ConsumedEndsWithPattern | app/src/main/java/com/jjv360/ipfsandroid/StreamSearcher.kt:26-36 | When a range matches, the bytes consumed up to the match leave the count at 0, and everything fed so far ends with the pattern. |
| StreamSearching.StreamSearcher.constructor | app/src/main/java/com/jjv360/ipfsandroid/StreamSearcher.kt:15-20 | A new searcher holds the given pattern bytes with a count of 0. |
| StreamSearching.StreamSearcher.AddByte | app/src/main/java/com/jjv360/ipfsandroid/StreamSearcher.kt:39-66 | `add(byte)` keeps `0 <= matchedCount < |pattern|`. It returns true exactly when the byte completes the pattern, then resets the count to 0, and the bytes fed then end with the pattern. |
| StreamSearching.StreamSearcher.AddRange | app/src/main/java/com/jjv360/ipfsandroid/StreamSearcher.kt:26-36 | `add(data, offset, length)` returns true exactly when some byte of the range completes a match. Only the bytes up to the first completing one are consumed, and the count is then 0. |
| StreamSearching.StreamSearcher.Add | app/src/main/java/com/jjv360/ipfsandroid/StreamSearcher.kt:23 | `add(data)` behaves as `add(data, 0, data.size)`. |
| Supervision.PowerPluggedIn | app/src/main/java/com/jjv360/ipfsandroid/BackgroundService.kt:94-102 | Plugged in exactly when EXTRA_PLUGGED is AC (1), USB (2) or wireless (4). A missing broadcast or extra means not plugged in. |
| Supervision.NoticeFor | app/src/main/java/com/jjv360/ipfsandroid/BackgroundService.kt:192-222 | Gives each of the five notification states as an if-and-only-if over the process, the ready flag, the power state and the idle time. |
| Supervision.IdleShutdownDue | app/src/main/java/com/jjv360/ipfsandroid/BackgroundService.kt:375 | The idle shutdown is due when the node is unplugged and more than five minutes have passed since the last activity. |
| Supervision.PluggedInNeverIdlesOut | app/src/main/java/com/jjv360/ipfsandroid/BackgroundService.kt:368-383 | On external power, the idle shutdown is never due and the "unused" notice is never shown. |
| Supervision.IdleShutdownStaysDue | app/src/main/java/com/jjv360/ipfsandroid/BackgroundService.kt:375 | Once the idle shutdown is due, it stays due as time passes without activity. |
| Supervision.IdleShutdownIsAnnounced | app/src/main/java/com/jjv360/ipfsandroid/BackgroundService.kt:204-214 | A ready node whose idle shutdown is due shows the "unused" notice. |
| Supervision.UnusedMeansShutdownSoon | app/src/main/java/com/jjv360/ipfsandroid/BackgroundService.kt:210-214 | An "unused" notice means the idle shutdown is due within two minutes. |
| Supervision.OrZero | app/src/main/java/com/jjv360/ipfsandroid/BackgroundService.kt:390-392 | A null statistic reads as 0. |
| Supervision.BandwidthOf | app/src/main/java/com/jjv360/ipfsandroid/BackgroundService.kt:389-392 | The stored rates are the reported ones. The stored total is incoming plus outgoing. A null answer stores zeros. |
| Supervision.EmptyAnswerResetsBandwidth | app/src/main/java/com/jjv360/ipfsandroid/BackgroundService.kt:390-392 | An answer with no numbers resets all three bandwidth fields to 0. |
| Supervision.DaemonCommand | app/src/main/java/com/jjv360/ipfsandroid/BackgroundService.kt:274-282 | The argument vector is the binary, then `daemon`, then five distinct `--` flags. `StartNode` spawns exactly this vector. |
| Supervision.DaemonEnvironment | app/src/main/java/com/jjv360/ipfsandroid/BackgroundService.kt:285-287 | The environment is the single variable `IPFS_PATH=<repo path>`. `StartNode` spawns with exactly this environment. |
| Supervision.ServiceRegistry.constructor | app/src/main/java/com/jjv360/ipfsandroid/BackgroundService.kt:41-44 | There is no instance and no pending promise at first. |
| Supervision.ServiceRegistry.Start | app/src/main/java/com/jjv360/ipfsandroid/BackgroundService.kt:50-70 | With a running instance, `start` sets its `lastActivity` to now and returns that instance, changing nothing else. Otherwise it appends one fresh promise after the pending ones. No promise is both pending and resolved. |
| Supervision.BackgroundService.constructor | app/src/main/java/com/jjv360/ipfsandroid/BackgroundService.kt:74-91 | The field initialisers: the activity and start dates are now, and there is no process, no readiness, zero bandwidth, no timer, no power and no daemon spawned yet. |
| Supervision.BackgroundService.StartNode | app/src/main/java/com/jjv360/ipfsandroid/BackgroundService.kt:262-299 | Clears the ready flag, holds a process and creates two fresh matchers for the two markers, each with a count of 0. Records the spawned argument vector as `DaemonCommand` of the binary path and the environment as `DaemonEnvironment` of the repository path. |
| Supervision.BackgroundService.OnCreate | app/src/main/java/com/jjv360/ipfsandroid/BackgroundService.kt:128-162 | Publishes the service as the instance and starts the node. Resolves every pending promise with this service, once and in order, before any readiness, then empties the list and schedules the timer. The daemon it spawns gets `DaemonCommand` and `DaemonEnvironment` of the given paths. |
| Supervision.BackgroundService.OnStartCommand | app/src/main/java/com/jjv360/ipfsandroid/BackgroundService.kt:105-120 | Any start marks activity at now. Only the "shutdown" action requests a stop. |
| Supervision.BackgroundService.OnDestroy | app/src/main/java/com/jjv360/ipfsandroid/BackgroundService.kt:165-181 | Withdraws the instance only if it is this service, and drops the timer and the process. The ready flag is left as it is. |
| Supervision.BackgroundService.OnPowerChanged | app/src/main/java/com/jjv360/ipfsandroid/BackgroundService.kt:94-102 | `isPluggedIn` becomes the broadcast's reading, and nothing else changes. |
| Supervision.BackgroundService.OnStdout | app/src/main/java/com/jjv360/ipfsandroid/BackgroundService.kt:302-331 | Until the node is ready, each chunk is fed to the ready matcher. The node becomes ready exactly when the chunk completes "Daemon is ready". Once ready, the matcher is no longer fed. The start date and the other fields stay the same. |
| Supervision.BackgroundService.OnStderr | app/src/main/java/com/jjv360/ipfsandroid/BackgroundService.kt:334-346 | Every chunk is fed to the activity matcher. `lastActivity` moves to now exactly when the chunk completes "BlockService GetBlock:". With no process, or at the end of the stream, the matcher is left untouched. The start date and the other fields stay the same. |
| Supervision.BackgroundService.OnProcessExit | app/src/main/java/com/jjv360/ipfsandroid/BackgroundService.kt:349-363 | When the process exits, the ready flag and the process handle are cleared and a stop is requested. |
| Supervision.BackgroundService.CheckStatus | app/src/main/java/com/jjv360/ipfsandroid/BackgroundService.kt:368-426 | Does nothing until the node is ready. If the node is unplugged and idle past five minutes, it requests a stop and polls nothing. Otherwise a successful poll stores the bandwidth and a failed one is ignored. A stop it requests is one the notice announced: the notice at that moment is "unused", or "offline" when no process is held. |
| OpenUrl.DispatchLink | app/src/main/java/com/jjv360/ipfsandroid/OpenURLActivity.kt:24-58 | Both directions: a missing URI is the missing-data case. A present URI is an invalid link exactly when none of the four guards holds (namespace scheme; namespace first segment with a second one; a lone segment equal to one of the two pattern texts). Every other URI opens a path. |
| OpenUrl.TemplateText | app/src/main/java/com/jjv360/ipfsandroid/OpenURLActivity.kt:35 | A null host is written as "null" in the path. |
| OpenUrl.SchemeLinkOpensHost | app/src/main/java/com/jjv360/ipfsandroid/OpenURLActivity.kt:32-35 | An `ipfs:` or `ipns:` URI opens `/<scheme>/<host>`, whatever its path. |
| OpenUrl.PathLinkOpensTwoSegments | app/src/main/java/com/jjv360/ipfsandroid/OpenURLActivity.kt:37-40 | Any other URI whose first segment is `ipfs` or `ipns` opens its first two segments. Further segments do not change the result. |
| OpenUrl.SingleSegmentOnlyLiteral | app/src/main/java/com/jjv360/ipfsandroid/OpenURLActivity.kt:42-50 | Both directions: a lone segment is opened exactly when it equals one of the two pattern texts. The hash text opens under `/ipfs/` and the name text under `/ipns/`. |
| OpenUrl.BareHashRejected | app/src/main/java/com/jjv360/ipfsandroid/OpenURLActivity.kt:42-56 | A bare 46-character content hash given as the only path segment gets "Invalid link". |
| OpenUrl.OpenedPathHasNamespace | app/src/main/java/com/jjv360/ipfsandroid/OpenURLActivity.kt:24-58 | Every opened path starts with `/ipfs/` or `/ipns/`. |
| OpenUrl.GatewayUrl | app/src/main/java/com/jjv360/ipfsandroid/OpenURLActivity.kt:69 | The viewed URL is `http://localhost:8080` followed by the path. |
| OpenUrl.OpenedUrlShape | app/src/main/java/com/jjv360/ipfsandroid/OpenURLActivity.kt:24-79 | Every URL opened is the gateway origin followed by `/ipfs/` or `/ipns/`. A URI that opens nothing gets the "Invalid link" error. |
| OpenUrl.Resume | app/src/main/java/com/jjv360/ipfsandroid/OpenURLActivity.kt:24-79 | A URL is viewed exactly when the link is recognised and the service starts. The URL viewed is the gateway origin followed by the path the dispatch chose. A missing URI crashes. The error title tells an unreadable link from a failed start. The service's `start` never rejects its promise (BackgroundService.kt:50-70, :148), so the failed-start outcome cannot occur in the code as it stands. `openPath` still handles it, and the model keeps it as an input. |
| MainScreen.NatText | app/src/main/java/com/jjv360/ipfsandroid/MainActivity.kt:140-142 | Decimal digits without leading zeros. |
| MainScreen.NatTextReadsBack | app/src/main/java/com/jjv360/ipfsandroid/MainActivity.kt:140-142 | Reading the digits back gives the number. |
| MainScreen.LongText | app/src/main/java/com/jjv360/ipfsandroid/MainActivity.kt:140-142 | The text starts with `-` exactly for negative numbers. After the sign come decimal digits without leading zeros, and a lone `0` only for zero, so `-0` never appears. |
| MainScreen.LongTextReadsBack | app/src/main/java/com/jjv360/ipfsandroid/MainActivity.kt:140-142 | Parsing the rendered number gives the number back. |
| MainScreen.TruncDiv | app/src/main/java/com/jjv360/ipfsandroid/MainActivity.kt:140-142 | Kotlin's `/` on Long: the floor for non-negative operands and the ceiling for negative ones. |
| MainScreen.DurationOf | app/src/main/java/com/jjv360/ipfsandroid/MainActivity.kt:138-142 | Exactly one unit applies: seconds under 60000 ms, minutes under 3600000 ms, hours beyond. Minutes are 1..59 and hours at least 1. Each amount is the whole number of units elapsed, rounded toward zero. |
| MainScreen.DurationText | app/src/main/java/com/jjv360/ipfsandroid/MainActivity.kt:139-142 | The text is the amount, a space and the unit name. The amount is written as `LongText` writes it, with no leading zeros, and reads back from the text. |
| MainScreen.ClockSetBackShowsNegativeSeconds | app/src/main/java/com/jjv360/ipfsandroid/MainActivity.kt:138-140 | Every negative duration, from a start time in the future, is shown in seconds, as zero or a negative amount. For example, -1500 ms shows as -1 and -999 ms as 0, because the division truncates toward zero. |
| MainScreen.StatsText | app/src/main/java/com/jjv360/ipfsandroid/MainActivity.kt:133-157 | The text is "- Node is offline" exactly when there is no instance. Otherwise there are three lines: the transferred line, the duration line holding the duration text, and the repository-size line, which ends the text. |
| MainScreen.EffectOf | app/src/main/java/com/jjv360/ipfsandroid/MainActivity.kt:79-181 | Each of the four row actions has its own effect, in both directions. Dashboard views the WebUI URL, Open link asks for an address, and only Shutdown sends a service action, which is the one the service stops on. Only About shows the info dialog, and that dialog carries the stats text. |
| MainScreen.MainActivity.constructor | app/src/main/java/com/jjv360/ipfsandroid/MainActivity.kt:251 | The list starts empty. |
| MainScreen.MainActivity.UpdateListItems | app/src/main/java/com/jjv360/ipfsandroid/MainActivity.kt:73-130 | The old rows are discarded. Exactly four row items remain, in order Dashboard, Open link, Shutdown, About, none deletable, each with its own action. |
| MainScreen.MainActivity.OnClick | app/src/main/java/com/jjv360/ipfsandroid/MainActivity.kt:189-198 | A tap on an existing row runs that row's action when it has one. An index outside the list fails. |
| MainScreen.MainActivity.OnLongClick | app/src/main/java/com/jjv360/ipfsandroid/MainActivity.kt:201-235 | The delete dialog appears exactly for an existing row that can be deleted, titled with that row's title. |
| MainScreen.RebuiltMenuScenario | app/src/main/java/com/jjv360/ipfsandroid/MainActivity.kt:122-127 | After the rebuild, tapping the third row sends the "shutdown" action the service stops on. No row can be long-pressed into the delete dialog. |

## Left out

- Android framework glue is not modelled:
  - the Service and Activity lifecycle dispatch;
  - notification channels, builders, buttons and `startForeground`;
  - `PendingIntent`;
  - registering and unregistering the power receiver;
  - the RecyclerView adapter and view inflation;
  - the alert dialogs and their texts.

  `updateNotification` is modelled only as its choice among the five notices.
- Process spawning and stream I/O are not modelled:
  - `Runtime.exec` itself and the executable bit (the spawn is recorded as its argument vector and environment);
  - the working directory of the spawn and the `mkdirs` of the IPFS folder;
  - how the binary and repository paths are built from `nativeLibraryDir` and `cacheDir` (they are parameters);
  - the pump loops' reads;
  - the passthrough to `System.out` and `System.err`;
  - the follow-up `log level blockservice debug` command and its exit code.

  Each read is an event method that gets the bytes read.
- A failure to spawn the daemon is not modelled, because the code does not handle it.
- Concurrency is not modelled:
  - `task {}`, `promiseOnUi`, `successUi`;
  - the 3-second `Timer`;
  - Kovenant `Deferred`.

  The methods are sequential events, and promises are waiter ids.
- The bandwidth query `LocalIPFS().stats.bandWidth()` is an HTTP call. Its outcome is the `reply` input.
- `readableFileSize` is not modelled, because it formats floating-point numbers. The About stats take its output strings as inputs.
- `MainActivity.size` is not modelled, because it walks the file system.
- The fixed introduction text of the About dialog is not modelled. Only its stats part is.
- Parsing a URI into scheme, host and segments is Android's `Uri` and is not modelled. These components are inputs.
- The "Go" button that turns typed text into a URI is not modelled.
- The commented-out netstat block is not modelled. `ipfsNumConnections` is only initialised.
- StreamSearching.StreamSearcher.constructor takes the pattern as bytes. It does not model the UTF-8 encoding of the search text, because both markers are ASCII and their bytes are the `ReadyMarker` and `ActivityMarker` constants.
- StreamSearching.StreamSearcher.constructor requires a non-empty pattern. With an empty one, the code's first `add` indexes past the end and throws. Both markers are non-empty.
- StreamSearching.StreamSearcher.AddRange requires the range to lie inside the array when it is non-empty. In the code such a call reads the range byte by byte until the first match. It throws `ArrayIndexOutOfBoundsException` only if it reaches an index outside the array before any byte completes a match. That behaviour is not modelled. The model does not model the `Int` overflow of `offset + length`.
- Supervision.BackgroundService.OnStdout treats a negative read count as a no-op event rather than the end of the pump loop. The same holds for Supervision.BackgroundService.OnStderr. Ending the loop is left to `OnProcessExit`.
- Supervision.BackgroundService.CheckStatus does not model the `Long` overflow of the idle comparison or `toLong` truncation, because integers here are unbounded.
- MainScreen.DurationOf does not model the `Long` overflow of `now - dateStarted`, because integers here are unbounded.
- `onResume` of MainActivity only calls `start`, and is covered by Supervision.ServiceRegistry.Start.
