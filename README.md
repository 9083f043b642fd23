# Per-file build message cache (docfx incremental build)

This project models `BuildMessageInfo`, the cache that docfx's incremental build uses to remember the diagnostics logged for each source file. On a later build that skips the file, the cache replays those diagnostics.

- **State.** The cache owns one dictionary, `_logs`. It maps a file key to the log items recorded for that file, oldest first. The model has a class `Incrementals.BuildMessageInfo` with a field `logs: map<string, seq<LogItem>>`. Its methods reassign that field, and it has a nullable `listener` field that is filled in lazily.
- **Capture.** The private `Listener` is attached to the global logger. It passes on only items of severity `Warning` or above. The cache ignores items without a file (`File == null`). Each remaining item is keyed as follows: a relative path becomes its forward-slash form, and any other path is rewritten relative to the base directory. The cache then appends a copy of the item under that key. The copy keeps the forward-slash form of the original path, not the key.
- **Reading.** `GetMessages` looks up the exact key it is given and returns an empty sequence when the key is missing. `Replay` logs the stored items for one key into the logger, in order.
- **Persistence.** `Save` hands the whole dictionary to the encoder. `Load` builds a cache from the decoded dictionary and refuses a null one.

Modules:
- `Wrappers` (wrappers.dfy) holds `Option` (C# `null`) and `Result` (an exception).
- `Paths` (paths.dfy) holds the backslash replacement, the relative-path test and the rewriting of a path relative to the base directory.
- `Logging` (logging.dfy) holds the severity enumeration, log items, and `Channel`, which stands for the global `Logger.Log`.
- `Incrementals` (build_message_info.dfy) holds the specification functions of the cache (`Record`, `Capture`, `CaptureAll`, the reference definition `Kept`), the lemmas about them, and the classes `BuildMessageInfo` and `Listener`.

Each state-changing method is proved against a specification function: `BuildMessageInfo.WriteLine` against `Record`, `Listener.WriteLine` against `Capture`, and `Replay` against `Messages`. The properties of those functions are proved as lemmas.

Three behaviours of the code that the model keeps:
- Only a null `File` is skipped (BuildMessageInfo.cs:78-81). An empty path goes on to the key computation, and with this model's relative-path test it is stored under the key `""` (`EmptyFileIsRecorded`).
- `GetMessages` does not canonicalise its argument: it looks up the exact string it is given (BuildMessageInfo.cs:41-49).
- The code takes no locks; the model is sequential.

## Model

| member | source | states |
|---|---|---|
| Paths.BackSlashToForwardSlash | src/Microsoft.DocAsCode.Build.Engine/Incrementals/BuildMessageInfo.cs:82 | The result has the input's length. Each backslash becomes `/` and every other character is unchanged, so the result contains no backslash. |
| Paths.ForwardSlashFixesSlashFree | src/Microsoft.DocAsCode.Build.Engine/Incrementals/BuildMessageInfo.cs:82 | A string without backslashes is its own forward-slash form. |
| Paths.ForwardSlashIdempotent | src/Microsoft.DocAsCode.Build.Engine/Incrementals/BuildMessageInfo.cs:82 | Replacing backslashes twice gives the same string as replacing them once. |
| Paths.ForwardSlashKeepsRelativity | src/Microsoft.DocAsCode.Build.Engine/Incrementals/BuildMessageInfo.cs:82-83 | A path is relative exactly when its forward-slash form is relative (both directions). |
| Paths.IsRelativePath | src/Microsoft.DocAsCode.Build.Engine/Incrementals/BuildMessageInfo.cs:83 | A path that starts with `/` or `\` or has a drive colon at index 1 is not relative; every other path, the empty one included, is relative. |
| Paths.MakeRelativePath | src/Microsoft.DocAsCode.Build.Engine/Incrementals/BuildMessageInfo.cs:85 | The rewritten path has no backslash and is no longer than the input. When the path lies below the base directory, base directory + `/` + result is the path's forward-slash form; otherwise the result is that whole forward-slash form. |
| Incrementals.FileFromWorkingDir | src/Microsoft.DocAsCode.Build.Engine/Incrementals/BuildMessageInfo.cs:82-86 | The key of a relative path, or of an absolute path outside the base directory, is the path's forward-slash form. The key of an absolute path below the base directory is what follows the base directory and `/` in that form. The key never contains a backslash and is no longer than the path. |
| Incrementals.RelativeKey | src/Microsoft.DocAsCode.Build.Engine/Incrementals/BuildMessageInfo.cs:82-86 | For a relative path, the key is the path with every `\` replaced by `/`. That key is again relative and is its own key. |
| Incrementals.KeyIdempotent | src/Microsoft.DocAsCode.Build.Engine/Incrementals/BuildMessageInfo.cs:82-86 | Whenever a key is relative, computing the key again from it gives the same key. |
| Incrementals.KeyOutsideBaseIdempotent | src/Microsoft.DocAsCode.Build.Engine/Incrementals/BuildMessageInfo.cs:82-86 | The key of an absolute path outside the base directory is its forward-slash form, and computing the key again from it gives the same key. |
| Incrementals.NestedAbsoluteKeyNotIdempotent | src/Microsoft.DocAsCode.Build.Engine/Incrementals/BuildMessageInfo.cs:82-86 | With base `X:`, the file `X:\X:\name` is keyed `X:/name`, and keying that again gives `name`: the model's key is not idempotent for every path. |
| Incrementals.AbsolutePathBelowBase | src/Microsoft.DocAsCode.Build.Engine/Incrementals/BuildMessageInfo.cs:82-99 | For a rooted base `X:\dir` (dir of one or more levels, not ending in a separator) and file `X:\dir\name`, the key is the forward-slash form of `name`. The stored copy's file is the forward-slash form of the whole path `X:/dir/name`, not the key. |
| Incrementals.StoredCopy | src/Microsoft.DocAsCode.Build.Engine/Incrementals/BuildMessageInfo.cs:92-99 | The stored copy has the item's line, level, message and phase. Its file is the forward-slash form of the item's original path (not the key), so it has no backslash. |
| Incrementals.Record | src/Microsoft.DocAsCode.Build.Engine/Incrementals/BuildMessageInfo.cs:78-99 | An item without a file leaves the dictionary unchanged. Otherwise the item's key is added to the key set and the stored copy is appended to that key's list, which starts empty if the key was missing. Every other key keeps its list. |
| Incrementals.Capture | src/Microsoft.DocAsCode.Build.Engine/Incrementals/BuildMessageInfo.cs:136-139 | An item below Warning, or one without a file, leaves the dictionary unchanged. A captured item with a file adds its key to the key set and exactly one entry to that key's list. |
| Incrementals.CapturedIffWarningOrError | src/Microsoft.DocAsCode.Build.Engine/Incrementals/BuildMessageInfo.cs:136 | The listener passes an item on exactly when its level is Warning or Error. |
| Incrementals.BelowThresholdIsIgnored | src/Microsoft.DocAsCode.Build.Engine/Incrementals/BuildMessageInfo.cs:134-140 | An item below Warning leaves the dictionary exactly as it was. |
| Incrementals.NullFileIsIgnored | src/Microsoft.DocAsCode.Build.Engine/Incrementals/BuildMessageInfo.cs:78-81 | An item whose file is null leaves the dictionary exactly as it was, whatever its level. |
| Incrementals.EmptyFileIsRecorded | src/Microsoft.DocAsCode.Build.Engine/Incrementals/BuildMessageInfo.cs:78-99 | An empty file name is not skipped: a captured item that names it is recorded. Because this model's `IsRelativePath` treats `""` as relative, it goes under the key `""`. |
| Incrementals.CaptureAppendsLast | src/Microsoft.DocAsCode.Build.Engine/Incrementals/BuildMessageInfo.cs:87-99 | A captured item with a file adds exactly one entry under its key: the earlier entries are kept as a prefix and the stored copy comes last. Every other key's list is unchanged. |
| Incrementals.CaptureIsAppendOnly | src/Microsoft.DocAsCode.Build.Engine/Incrementals/BuildMessageInfo.cs:87-99 | After any item reaches the listener, every existing key remains and its old list is a prefix of its new list. |
| Incrementals.CaptureAllIsAppendOnly | src/Microsoft.DocAsCode.Build.Engine/Incrementals/BuildMessageInfo.cs:87-99 | This append-only relation holds across any sequence of logged items. |
| Incrementals.CaptureAllMessages | src/Microsoft.DocAsCode.Build.Engine/Incrementals/BuildMessageInfo.cs:72-100 | After a sequence of logged items, the list under any key is the old list followed by the stored copies of those captured, file-scoped items whose key is that key, in logging order. |
| Incrementals.KeptEntriesAreCaptured | src/Microsoft.DocAsCode.Build.Engine/Incrementals/BuildMessageInfo.cs:134-140 | Every entry the cache gains has level Warning or above and a file without backslashes. |
| Incrementals.BuildMessageInfo.constructor | src/Microsoft.DocAsCode.Build.Engine/Incrementals/BuildMessageInfo.cs:22-25 | A new cache has an empty dictionary and no listener. |
| Incrementals.BuildMessageInfo.FromLogs | src/Microsoft.DocAsCode.Build.Engine/Incrementals/BuildMessageInfo.cs:27-34 | A cache built from a non-null dictionary holds a copy equal to it. |
| Incrementals.BuildMessageInfo.Load | src/Microsoft.DocAsCode.Build.Engine/Incrementals/BuildMessageInfo.cs:102-106 | Loading fails exactly when the decoded dictionary is null. Otherwise it returns a fresh cache whose dictionary equals the decoded one. |
| Incrementals.BuildMessageInfo.Save | src/Microsoft.DocAsCode.Build.Engine/Incrementals/BuildMessageInfo.cs:108-111 | The saved snapshot has the same keys as the dictionary and the same list under each key, with nothing filtered. |
| Incrementals.SaveThenLoad | src/Microsoft.DocAsCode.Build.Engine/Incrementals/BuildMessageInfo.cs:102-111 | Loading what was saved succeeds and gives a fresh cache with the same dictionary. |
| Incrementals.BuildMessageInfo.GetMessages | src/Microsoft.DocAsCode.Build.Engine/Incrementals/BuildMessageInfo.cs:41-49 | For a non-null file, returns the list stored under exactly the given string, or the empty sequence when that key is absent. It changes nothing. The null-file exception is listed under Left out. |
| Incrementals.BuildMessageInfo.GetListener | src/Microsoft.DocAsCode.Build.Engine/Incrementals/BuildMessageInfo.cs:51-58 | The first call creates a fresh listener bound to this cache. Every later call returns that same listener. The dictionary is untouched. |
| Incrementals.ListenerIsMemoised | src/Microsoft.DocAsCode.Build.Engine/Incrementals/BuildMessageInfo.cs:51-58 | Two calls to GetListener return the same object. |
| Incrementals.BuildMessageInfo.Replay | src/Microsoft.DocAsCode.Build.Engine/Incrementals/BuildMessageInfo.cs:64-70 | Appends exactly the stored list for the file to the logger channel, in order. The cache is unchanged. |
| Incrementals.ReplayTwice | src/Microsoft.DocAsCode.Build.Engine/Incrementals/BuildMessageInfo.cs:64-70 | Replaying a file twice emits its stored list twice and leaves the cache unchanged. |
| Incrementals.BuildMessageInfo.WriteLine | src/Microsoft.DocAsCode.Build.Engine/Incrementals/BuildMessageInfo.cs:72-100 | The new dictionary is `Record` of the old one. The method works through the key computation, the create-if-missing lookup and the append. |
| Incrementals.Listener.constructor | src/Microsoft.DocAsCode.Build.Engine/Incrementals/BuildMessageInfo.cs:117-124 | The listener is bound to the given cache for its lifetime (a `const` field). |
| Incrementals.Listener.WriteLine | src/Microsoft.DocAsCode.Build.Engine/Incrementals/BuildMessageInfo.cs:134-140 | The cache's new dictionary is `Capture` of the old one. If the item is captured and has a file, the change is append-only and the key's list becomes the old list plus the stored copy. Otherwise nothing changes. |

## Left out

- Paths.MakeRelativePath: `PathUtility.MakeRelativePath` is not part of this model. It is replaced by a prefix strip after slash normalisation. A path outside the base directory keeps its whole forward-slash form instead of gaining `../` segments, and case and URI escaping are not modelled.
- Paths.IsRelativePath: `PathUtility.IsRelativePath` is not part of this model. It is replaced by "not rooted": no leading `/` or `\` and no drive colon at index 1. URI well-formedness checks are not modelled. The stand-in treats the empty string as relative, so an empty `File` is keyed `""`; what the real helper does with an empty string is not modelled, and it may route such a path through `MakeRelativePath` instead.
- KeyIdempotent: the key is proved to be a fixpoint when it is relative and when the path is absolute but outside the base directory. It is not a fixpoint for an absolute path that contains the base directory twice (`NestedAbsoluteKeyNotIdempotent`). That is a property of the prefix-strip stand-in for `MakeRelativePath`, not something this model claims about the real helper.
- `EnvironmentContext.BaseDirectory` is process-wide ambient state. It becomes the `baseDirectory` parameter of both `WriteLine` methods.
- The global `Logger.Log` (BuildMessageInfo.cs:68) is ambient I/O. It becomes the `Channel` object that `Replay` appends to. The channel does not pass items on to registered listeners. So replaying into a logger where this cache's own listener is attached is not modelled. In the code, that would re-enter `WriteLine` and append to the very list the `foreach` at :66 is enumerating.
- A decoded snapshot whose dictionary is not null but holds a null list (`{"a.md": null}`) or a null item is not modelled. The constructor (BuildMessageInfo.cs:29-31) accepts it, and a later `Replay` or `WriteLine` would then throw a null-reference exception. `Logs` holds lists and items as values, which cannot be null.
- The JSON codec (`JsonUtility.Serialize`/`Deserialize`) is a foreign library. `Save` returns the dictionary as the snapshot, and `Load` takes the decoded snapshot, with `None` standing for a null payload. Malformed text and encoder failures belong to the codec and are not modelled.
- `GetMessages` and `Replay` with a null `file` throw `ArgumentNullException` from `TryGetValue` (BuildMessageInfo.cs:44), which `Replay` reaches through `GetMessages` (:66). The model's `file` is a non-null string, so that error path is not modelled.
- The null-item check in the private `WriteLine` (BuildMessageInfo.cs:74-77) is not modelled. It cannot be reached, because the listener reads `item.LogLevel` before forwarding. Log items are modelled as values, never null.
- The null check in the `Listener` constructor (BuildMessageInfo.cs:119-122) is not modelled. Dafny references are non-null, and the only caller passes `this`.
- `Listener.Dispose` and `Listener.Flush` (BuildMessageInfo.cs:126-132) are empty and are not modelled.
- Concurrency is not modelled: the source takes no locks.
- Aliasing is not modelled. `GetMessages` returns the live `List`, so later appends are visible through it. The copy made by the loading constructor is shallow. The model stores and returns lists as values.
- `Line`, `Message` and `Phase` can be null in the source. They are copied verbatim, so they are modelled as plain strings.
- The `LogLevel` enum is defined in another assembly. It is modelled in the order Diagnostic, Verbose, Info, Suggestion, Warning, Error, and only its comparison with Warning matters.
