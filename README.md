# funnylauncher core, modelled in Dafny

funnylauncher is a desktop launcher for a Minecraft Forge client. It keeps
itself up to date and checks the local game files against a checksum from
its server. When the files do not match, it downloads the game archive in
byte ranges and unpacks it. It then builds the Java command line from the
client's JSON manifests and starts the game. A control thread tracks whether
a game is running. The main window shows what the worker threads report.
The launcher also logs the player in and keeps the login token in a file.

The model has one module per core source file, plus small shared modules:

- `Wrappers`: `Option` and `Result`.
- `Ints`: fixed-width integer ranges.
- `Decimal`: decimal formatting and parsing of numbers.
- `Text`: character search.
- `Http`: what an HTTP exchange can return.
- `Commands`: the messages between threads.
- `Transfer`: what a sequence of ranged requests writes to a file.

The core modules:

- `RangeIter`: `PartialRangeIter` is a class whose `start` field moves
  forward. Its ghost `Produced` sequence records the ranges it has yielded.
  Its behaviour is tied to the pure function `Ranges`, and lemmas prove that
  `Ranges` is a contiguous, gap-free, in-bounds cover of the requested
  bytes.
- `LauncherUpdate` and `Downloader`: the two download procedures. Each is a
  method that drives a `PartialRangeIter`. Its outcome is the result, the
  messages sent, the downloaded file and whether the final step ran. The
  method's contract ties that outcome to an `Expected` function. Lemmas
  state the error paths, the order of messages and what the file holds.
- `Validate`: the checksum comparison.
- `MinecraftJson`: the classpath built from the libraries of a manifest,
  and the string arrays of arguments.
- `Minecraft`: the default options, the argument lists, the paths and the
  assembly of a launch (`New`, `Run`). Both argument lists are shown to
  round-trip.
- `LauncherController`: the control loop is a class with the `inGame` flag
  and a count of started workers. The worker thread is a method over its
  environment.
- `MainScreen`: the status line as a reducer of commands, and a `Screen`
  class whose `HandleCommands` takes one pending command per frame.
- `Auth`: login classification, token sanitising, and the token file as a
  `Store` class.
- `Locale`: choosing a translation by name.

Everything the program gets from the operating system or the network
becomes a parameter of the model:

- HTTP replies, as `Http.Reply` values or functions from a range header to
  a reply.
- Whether directories exist or can be created.
- Whether files can be created, written, opened and read.
- Whether extraction, renaming and process spawning succeed.
- The file contents read back.

The constants module `utils/constants` is not part of this model. Its values
(`WORKING_DIR`, `MINECRAFT_FORGE`, `MINECRAFT_VERSION`, the server URLs and
the version string) are parameters: `Minecraft.Constants`, and the
`version` argument of `LauncherUpdate.NeedUpdate`.

Where the project's documentation and its code disagree, the model follows
the code:

- A worker whose files are already valid sends only `VALIDATE` to the
  interface. It sends no `PLAY`.
- A failed game download makes the worker panic (`unwrap`). It does not send
  an `ERROR` command.
- `is_valid_files` answers `false` when the local checksum cannot be
  computed.
- Paths are joined with the Windows separator `\`, and the classpath
  separator is `;`.
- The expectation in `src/minecraft/tests.rs:35` leaves out that separator,
  so it does not match `libs_to_args` as written. `MinecraftJson.LibsToArgsTestExpectation`
  states both facts.
- The progress text divides both numbers by 2048 (`1024 * 2`) and labels
  them `Mb`.

## Model

| member | source | states |
|---|---|---|
| RangeIter.ParseHeaderRoundTrip | src/launcher/launcher_update.rs:62 | the `bytes=first-last` header of a range reads back as that range |
| RangeIter.PartialRangeIter.Init | src/launcher/launcher_update.rs:45-49 | a new iterator holds the given start, end and buffer size and has yielded nothing |
| RangeIter.PartialRangeIter.New | src/launcher/launcher_update.rs:41-50 | a zero buffer size is refused with the source's message; any other size gives an iterator over exactly the given bounds |
| RangeIter.PartialRangeIter.Next | src/launcher/launcher_update.rs:55-67 | yields nothing exactly when start is past end, and then changes nothing; otherwise yields the header and first offset of the next chunk of at most the buffer size, and moves start one past it; end and buffer size never change |
| RangeIter.RangesCount | src/launcher/launcher_update.rs:55-67 | iterating from s to e yields ceil((e + 1 - s) / n) ranges |
| RangeIter.RangesOffsets | src/launcher/launcher_update.rs:59-64 | the i-th range starts at s + i * n, the offset reported with it |
| RangeIter.RangesSizes | src/launcher/launcher_update.rs:60 | every range holds 1 to n bytes, and all but the last exactly n |
| RangeIter.RangesLastBound | src/launcher/launcher_update.rs:60 | no range reaches past the end |
| RangeIter.RangesContiguous | src/launcher/launcher_update.rs:59-62 | each range starts right after the previous one ends, the first starts at s and the last ends at e |
| RangeIter.RangesCover | src/launcher/launcher_update.rs:55-67 | a byte is requested by some range exactly when it lies between s and e |
| RangeIter.RangesTotal | src/launcher/launcher_update.rs:60 | the ranges request e + 1 - s bytes in total |
| RangeIter.Drain | src/launcher/launcher_update.rs:129 | running the iterator to exhaustion yields exactly the ranges of `Ranges`, one header per range, and leaves its end and buffer size unchanged |
| Transfer.ConcatSnoc | src/launcher/launcher_update.rs:150-156 | one more range appends its body to the file |
| Transfer.ConcatExact | src/launcher/launcher_update.rs:129-157 | when each range's reply is that slice of the content, the bodies joined in order are the requested bytes |
| Transfer.ConcatWhole | src/launcher/launcher_update.rs:121-157 | with exact replies for 0..size-1, the file is the whole content |
| LauncherUpdate.Preflight | src/launcher/launcher_update.rs:79-119 | a failed request, a non-success status, a missing content length, an unknown download directory and a failed create each give their own error, in that order; otherwise the content length |
| LauncherUpdate.FirstRejected | src/launcher/launcher_update.rs:138-148 | the index of the first range whose request fails or whose status is not success; all earlier ones were accepted |
| LauncherUpdate.DataTrace | src/launcher/launcher_update.rs:129-136 | one `Data` message per range, with its first offset and the total size |
| LauncherUpdate.DownloadLauncher | src/launcher/launcher_update.rs:70-190 | the result, messages, file and replacement are those of `Expected` |
| LauncherUpdate.FetchAndReplace | src/launcher/launcher_update.rs:121-189 | once the size is known, the result, messages, file and replacement are those of `Fetch` |
| LauncherUpdate.ExpectedCases | src/launcher/launcher_update.rs:79-175 | a failed check sends nothing and writes nothing; a rejected range ends the messages with its own `Data` and keeps the earlier bodies; if every range is accepted, the file holds all bodies in range order, the messages are one `Data` per range followed by `Completed` only on success, the executable is replaced when its path is found and the rename succeeds, and a failed path lookup, a failed rename and a failed second lookup in `relaunch` give their errors |
| LauncherUpdate.CompletedOnlyOnSuccess | src/launcher/launcher_update.rs:159-189 | `Completed` is sent exactly when the update succeeds, and last; the update succeeds exactly when the executable was replaced and `relaunch` finds it again |
| LauncherUpdate.NoCompletedInTrace | src/launcher/launcher_update.rs:129-136 | the loop sends only `Data` messages |
| LauncherUpdate.FetchRanges | src/launcher/launcher_update.rs:129-157 | the loop stops at the first rejected range, having sent a message per range up to it and written the bodies before it |
| LauncherUpdate.FetchNext | src/launcher/launcher_update.rs:129-157 | one loop step keeps the loop invariant and shortens what is left, or ends the loop in its final state |
| LauncherUpdate.DataTraceSnoc | src/launcher/launcher_update.rs:130 | each further range adds one `Data` message at the end |
| LauncherUpdate.FirstRejectedAt | src/launcher/launcher_update.rs:146-148 | the first rejected range is the one after the accepted prefix |
| LauncherUpdate.NeedUpdate | src/launcher/launcher_update.rs:192-237 | an update is needed exactly when the server's text differs from the version; a failed request, a non-success status and an unreadable text each give their own error |
| LauncherUpdate.LauncherOffsets | src/launcher/launcher_update.rs:73-130 | an update of `size` bytes takes ceil(size / 102400) requests, each reporting an offset below `size` |
| LauncherUpdate.LauncherFileIsPackage | src/launcher/launcher_update.rs:121-157 | when the server answers every range with that slice of the package, no range is rejected and the file is the package |
| Downloader.Preflight | src/minecraft/downloader.rs:53-87 | a failed request, a missing content length, an unknown download directory and a failed create each give their own error, in that order, with no status check; otherwise the content length |
| Downloader.FirstUndelivered | src/minecraft/downloader.rs:104-110 | the index of the first range whose request fails; the status is never checked |
| Downloader.DownloadTrace | src/minecraft/downloader.rs:96-103 | one `DOWNLOAD` message per range, with its first offset and the total size |
| Downloader.DownloadMinecraft | src/minecraft/downloader.rs:47-161 | the result, messages, file and extraction are those of `Expected` |
| Downloader.FetchAndUnpack | src/minecraft/downloader.rs:89-160 | once the size is known, the result, messages, file and extraction are those of `Fetch` |
| Downloader.ExpectedCases | src/minecraft/downloader.rs:53-149 | a failed check sends nothing; a failed request ends the messages with its own `DOWNLOAD` and leaves the file holding the bodies received before it; after the loop the file holds all bodies in order; a missing data directory sends nothing more, a failed extraction sends `UNZIPING` only, and a successful one `UNZIPING` and `PLAY`; the game is extracted only if both succeed |
| Downloader.PlayOnlyOnSuccess | src/minecraft/downloader.rs:121-160 | `PLAY` is sent exactly on success, and last; the game is extracted exactly on success |
| Downloader.SuccessIffSucceeds | src/minecraft/downloader.rs:47-161 | the download returns `Ok` exactly when every step succeeds |
| Downloader.Unpack | src/minecraft/downloader.rs:127-160 | `UNZIPING` follows the data-directory check, and `PLAY` follows a successful extraction |
| Downloader.FetchRanges | src/minecraft/downloader.rs:96-119 | the loop stops at the first failed request, having sent a message per range up to it and written the bodies before it |
| Downloader.FetchNext | src/minecraft/downloader.rs:96-119 | one loop step keeps the loop invariant and shortens what is left, or ends the loop in its final state |
| Downloader.NoPlayInTrace | src/minecraft/downloader.rs:96-103 | the loop sends only `DOWNLOAD` messages |
| Downloader.DownloadTraceSnoc | src/minecraft/downloader.rs:97 | each further range adds one `DOWNLOAD` message at the end |
| Downloader.FirstUndeliveredAt | src/minecraft/downloader.rs:104-110 | the first failed request is the one after the delivered prefix |
| Downloader.MinecraftTrace | src/minecraft/downloader.rs:50-103 | a game of `size` bytes is fetched in ceil(size / 1024000) requests, each reporting an offset below `size` |
| Downloader.MinecraftFileIsArchive | src/minecraft/downloader.rs:89-119 | when the server answers every range with that slice of the archive, every request is delivered and the file is the archive |
| Validate.IsValidFiles | src/minecraft/validate.rs:3-24 | the files are valid exactly when the local checksum was computed, is not `error`, and equals the server's text (an unreadable text counts as empty) |
| Validate.ErrorChecksumNeverValid | src/minecraft/validate.rs:9-14 | a local checksum equal to `error` is never valid, even when the server also answers `error` |
| Validate.StatusAndReadFailureIgnored | src/minecraft/validate.rs:16 | the status of the checksum reply is not looked at |
| MinecraftJson.Entries | src/minecraft/minecraft_json.rs:74-80 | one classpath entry per library, in order, each the base, the separator and the library's path |
| MinecraftJson.Classpath | src/minecraft/minecraft_json.rs:74-80 | the classpath is empty exactly when there are no libraries |
| MinecraftJson.ClasspathLength | src/minecraft/minecraft_json.rs:74-80 | the classpath has the lengths of its entries plus one `;` per library |
| MinecraftJson.ClasspathAppend | src/minecraft/minecraft_json.rs:74-80 | the classpath of two library lists is the two classpaths joined |
| MinecraftJson.SplitClasspathEntries | src/minecraft/minecraft_json.rs:74-80 | splitting the classpath at `;` gives back the entries, whatever follows it |
| MinecraftJson.LibsToArgsEntries | src/minecraft/minecraft_json.rs:74-80 | the classpath of a manifest splits into exactly one entry per library |
| MinecraftJson.LibsToArgsTestExpectation | src/minecraft/tests.rs:24-36 | for the test's two libraries the classpath contains the separator, so it differs from the test's expected string |
| MinecraftJson.Strings | src/minecraft/minecraft_json.rs:82-100 | each string of a JSON string array, in order |
| MinecraftJson.StringArray | src/minecraft/minecraft_json.rs:82-100 | a list of strings as a JSON string array |
| MinecraftJson.StringsRoundTrip | src/minecraft/minecraft_json.rs:82-100 | reading the strings of an array and building the array back are inverse |
| MinecraftJson.JvmArgsToArg | src/minecraft/minecraft_json.rs:82-90 | the JVM arguments are the strings of the manifest's `jvm` array |
| MinecraftJson.GameArgsToArg | src/minecraft/minecraft_json.rs:92-100 | the game arguments are the strings of the manifest's `game` array |
| Minecraft.DefaultJvmOptions | src/minecraft/mod.rs:24-33 | the default launcher name and version, with empty paths |
| Minecraft.JvmToArgs | src/minecraft/mod.rs:36-44 | five arguments, ending in `-cp` and the classpath |
| Minecraft.JvmArgsRoundTrip | src/minecraft/mod.rs:36-44 | the JVM argument list determines the options and is determined by them |
| Minecraft.DefaultGameOptions | src/minecraft/mod.rs:62-78 | the default user, token, server and port, the Forge version, and empty directories |
| Minecraft.GameToArgs | src/minecraft/mod.rs:81-106 | 22 arguments: each of the 11 flags followed by its value |
| Minecraft.GameArgsRoundTrip | src/minecraft/mod.rs:81-106 | the game argument list determines the options and is determined by them |
| Minecraft.New | src/minecraft/mod.rs:118-216 | each missing or unreadable input gives its own error, in the source's order; success exactly when all inputs are present, with the natives path, the launcher version as the decimal text of the minimum version (0 when absent), the classpath, the game and asset directories and the asset index set |
| Minecraft.Assemble | src/minecraft/mod.rs:157-215 | the launch data built from the two manifests and the paths, with the launcher version as the decimal text of the minimum version, 0 when absent |
| Minecraft.LaunchClasspathEntries | src/minecraft/mod.rs:184-189 | the launch classpath splits into the Forge entries, the base entries and the game jar |
| Minecraft.Run | src/minecraft/mod.rs:218-244 | no data directory and a failed spawn give their errors; otherwise Java is started from the runtime path with the launch arguments |
| Minecraft.LaunchArgsLayout | src/minecraft/mod.rs:219-226 | the arguments are the Forge JVM arguments, the JVM options, the main class, the Forge game arguments and the game options, in that order |
| LauncherController.Controller.constructor | src/launcher/launcher_controller.rs:16 | no game is running and no worker has been started |
| LauncherController.Controller.Handle | src/launcher/launcher_controller.rs:27-52 | `RUN` raises the flag and starts a worker, `CONTINUE` lowers it, and every other command leaves both alone |
| LauncherController.Controller.Serve | src/launcher/launcher_controller.rs:26-53 | the loop handles the inbox up to and including the first `EXIT`; the flag and the worker count are those of the handled commands |
| LauncherController.FlagAfterAppend | src/launcher/launcher_controller.rs:26-53 | handling two batches in turn is handling them joined |
| LauncherController.RunCountAppend | src/launcher/launcher_controller.rs:28-45 | the workers of two batches add up |
| LauncherController.ServeStep | src/launcher/launcher_controller.rs:27-52 | one more command changes the flag and count as one match arm does |
| LauncherController.HandledUpTo | src/launcher/launcher_controller.rs:26-53 | a prefix without `EXIT` is handled in full |
| LauncherController.RunThenContinue | src/launcher/launcher_controller.rs:28-49 | a `RUN` followed by its `CONTINUE` leaves no game running |
| LauncherController.LastToggle | src/launcher/launcher_controller.rs:28-51 | there is no last toggle exactly when no command is `RUN` or `CONTINUE`, so by `FlagIsLastToggle` the other commands never change the flag |
| LauncherController.FlagIsLastToggle | src/launcher/launcher_controller.rs:28-49 | the flag is set by the last `RUN` or `CONTINUE`, if any |
| LauncherController.HandledIsExitPrefix | src/launcher/launcher_controller.rs:50 | the handled commands are a prefix of the inbox that contains `EXIT` only at its end, and all of it if there is no `EXIT` |
| LauncherController.NothingAfterExit | src/launcher/launcher_controller.rs:50 | commands after the first `EXIT` are never handled |
| LauncherController.EveryRunStartsWorker | src/launcher/launcher_controller.rs:35 | each `RUN` starts one worker |
| LauncherController.Worker | src/launcher/launcher_controller.rs:35-44 | every worker first sends `VALIDATE`; valid files send nothing more; otherwise the messages are exactly those the download sends, which for a successful repair are the full download trace, `UNZIPING` and `PLAY`; `CONTINUE` goes back exactly when the game ran and exited |
| LauncherController.Repair | src/launcher/launcher_controller.rs:37-39 | the repair returns `Ok` exactly when the download runs to the end, having sent its full trace; failed or not, it sends exactly the download's messages |
| LauncherController.PanickedWorkerKeepsFlag | src/launcher/launcher_controller.rs:36-43 | after a `RUN` whose worker panics, the flag stays up |
| LauncherController.StaysUp | src/launcher/launcher_controller.rs:46-49 | without a `CONTINUE` a raised flag is never lowered |
| MainScreen.ProgressTextRoundTrip | src/gui/main_screen.rs:93 | the progress text shows both sizes divided by 2048, and they can be read back |
| MainScreen.ReactState | src/gui/main_screen.rs:70-115 | the progress bar shows exactly for `VALIDATE`, `DOWNLOAD` and `UNZIPING`; `NONE` and `EXIT` change nothing |
| MainScreen.ReactError | src/gui/main_screen.rs:108-113 | `ERROR` opens the error box and leaves the text; nothing else touches the error box |
| MainScreen.ReactKeepsKnownText | src/gui/main_screen.rs:70-115 | the status line always shows one of its known texts |
| MainScreen.ReactAllAppend | src/gui/main_screen.rs:48-117 | frames applied in sequence compose |
| MainScreen.ReactAllDownloads | src/gui/main_screen.rs:89-95 | the download messages keep the progress bar up and leave the error box alone |
| MainScreen.SuccessfulDownloadScreen | src/gui/main_screen.rs:83-107 | a worker that repairs and starts the game leaves the label "В игре" |
| MainScreen.PlayButton | src/gui/main_screen.rs:151-156 | clicking Play sends one `RUN`, and only while no game is running |
| MainScreen.Screen.constructor | src/gui/main_screen.rs:32-46 | the screen starts idle with "Готов к запуску" and no error |
| MainScreen.Screen.HandleCommands | src/gui/main_screen.rs:48-117 | with a pending command, takes exactly that one and applies its arm; otherwise nothing changes |
| Auth.Classify | src/api/auth.rs:33-43 | a login succeeds exactly on a success status with a readable body that has a `token` string, giving that token; a 4xx status is a rejected login and any other failure status a server error |
| Auth.StatusErrorTexts | src/api/auth.rs:39-43 | the failure statuses give the `login_error` and `login_is_error` texts |
| Auth.Auth.constructor | src/api/auth.rs:16-22 | the default account has empty login, password and token |
| Auth.Auth.Send | src/api/auth.rs:25-46 | sends the login and password; stores the token exactly on success; any error leaves the token as it was |
| Auth.RequestIgnoresToken | src/api/auth.rs:20-21 | the token is not part of the request body |
| Auth.Sanitize | src/api/auth.rs:110 | the loaded token has no newline, tab, NUL or carriage return and is no longer than the file |
| Auth.SanitizeAppend | src/api/auth.rs:110 | filtering works character by character |
| Auth.SanitizeChar | src/api/auth.rs:110 | a single character is dropped exactly when it is one of the four |
| Auth.SanitizeIdentity | src/api/auth.rs:110 | filtering changes nothing exactly when the text is already clean |
| Auth.SanitizeIdempotent | src/api/auth.rs:110 | filtering twice is filtering once |
| Auth.Retain | src/api/auth.rs:110 | the in-place `retain` loop computes the filtered text |
| Auth.Store.constructor | src/api/auth.rs:86-96 | the store holds the given directory state and token file, and keeps the invariant that no `.auth` exists without the launcher's directory |
| Auth.Store.OpenDir | src/api/auth.rs:49-61 | no data directory, and a directory that cannot be created, give their errors; otherwise the directory exists afterwards; the file is untouched and the invariant is kept |
| Auth.Store.WriteFile | src/api/auth.rs:63-75 | a file that cannot be created is left alone; creating it truncates it; a failed write leaves it empty; otherwise it holds the text |
| Auth.Store.Save | src/api/auth.rs:48-76 | the directory exists afterwards exactly when it did or could be created; each failing step gives its error, the first three leaving the file as it was and a failed write leaving it empty; on success the file holds the token |
| Auth.Store.RemoveToken | src/api/auth.rs:118-146 | the directory exists afterwards exactly when it did or could be created; each failing step gives its error, the first three leaving the file as it was; on success and on a failed write the file is empty |
| Auth.Store.Load | src/api/auth.rs:78-116 | the file is untouched and the directory exists afterwards exactly when it did or could be created; each failing step gives its error in the source's order, a missing file meaning not authorised, which is always the case right after the directory was created; on success an account with only the filtered token set |
| Auth.SaveThenLoad | src/api/auth.rs:48-116 | when the file system cooperates, loading after saving gives the filtered token, and the token itself if it was clean |
| Auth.RemoveThenLoad | src/api/auth.rs:78-146 | when the file system cooperates, loading after removal gives an empty token |
| Locale.GetList | src/launcher/locale.rs:24-26 | two distinct names, one per translation, Russian first |
| Locale.Load | src/launcher/locale.rs:10-22 | Russian exactly for `ru-RU`; English for `en-US` and for every unknown name |
| Locale.Warning | src/launcher/locale.rs:15-18 | the warning is logged exactly for a name not in the list |
| Locale.ListedNamesSelectOwnFile | src/launcher/locale.rs:12-25 | every listed name selects its own translation without a warning |
| Locale.Name | src/launcher/locale.rs:12-14 | a translation's name selects that translation |
| Decimal.ParseNatToString | src/launcher/launcher_update.rs:62 | a formatted number reads back as itself |
| Decimal.ParseIntToString | src/minecraft/mod.rs:165-168 | a formatted signed number reads back as itself |
| Decimal.NatToStringInjective | src/gui/main_screen.rs:93 | different numbers have different decimal texts |

## Left out

- HTTP client construction, timeouts and the text of transport errors are left out, because they belong to the HTTP library. A transport error is a single `TransportError` value.
- Auth.Store.WriteFile: a `write` that stores only part of the text is not modelled. `file.write` may accept fewer bytes than given, and the source ignores the count, so a saved token could be cut short. In the model a write stores the whole text or fails.
- The message box and `exit(-1)` that `need_update` runs when the server cannot be reached are left out, because they are GUI and process control. The model keeps the error result `RequestFailed`.
- Failures of channel sends are left out. The model assumes every send is delivered, because the receiver lives as long as the program.
- `io::copy` write errors and partial writes are left out. A delivered body is appended whole.
- The command that `relaunch()` builds is left out, because it is never spawned. Its one fallible step, looking up the executable's path again, is the `relaunchExe` input of `LauncherUpdate.Env`.
- Process spawning, waiting and exit codes are left out. They appear only as a `spawn` result and a `gameExits` flag.
- Threads, the mutex around `in_game` and the timing of messages are left out. The model handles the commands one at a time, in inbox order.
- JSON parsing (`MinecraftJson::new`, serde) is left out, because it belongs to a library. A manifest file arrives already read, invalid or parsed (`Minecraft.Loaded`), and a login reply arrives as readable or not.
- The directory checksum (`checksumdir`) and the zip extraction (`Unzpack`) are left out, because they belong to libraries. Their outcomes are parameters.
- Path-to-text conversions that can fail (`to_str`) are left out. Paths are strings joined with `\`.
- The GUI drawing is left out, including the progress bar's floating-point fraction, the window frame and the close button that sends `EXIT`. The model keeps the status text, the progress or label state, and the error box.
- The log and debug output is left out, apart from the text of the locale warning.
- The translation files and their parsing are left out. Only which file is selected is modelled.
- The unwrap of `dirs::data_dir()` in `is_valid_files` is left out. The model assumes the data directory exists there.
- LauncherUpdate.DownloadLauncher: requires a content length of at least 1. With an empty download, `size - 1` underflows `u64` in the source.
- Downloader.DownloadMinecraft: requires a content length of at least 1, for the same `size - 1` underflow.
- LauncherController.Worker: requires a content length of at least 1 for its download, and a delivered checksum reply. The source panics in both cases.
- Auth.Store.constructor: requires that a missing launcher directory holds no `.auth` file, a state no file system can be in.
- LauncherController.Repair: requires a content length of at least 1, as its download does.
- Validate.IsValidFiles: requires the checksum reply to be delivered once a checksum is computed, because the source unwraps it.
- RangeIter.PartialRangeIter.Next requires `end < u64::MAX`, so that advancing past the end cannot overflow.
- Auth.Classify does not model the individual error texts of failed requests. Those texts come from the HTTP library.
