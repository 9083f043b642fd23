/**
 * The per-file diagnostic cache of incremental builds. A listener attached to
 * the global logger keeps every item of severity Warning or above that names a
 * file, under a key derived from that file's path; for a file that a later
 * build skips, the stored items are replayed into the logger in order. The
 * whole dictionary is saved at the end of a build and loaded at the start of
 * the next one.
 */
module Incrementals {
  import opened Wrappers
  import opened Paths
  import opened Logging

  /** The cache's dictionary: file key to the items logged for that file, oldest first. */
  type Logs = map<string, seq<LogItem>>

  /** Why loading a snapshot fails: the decoded dictionary was null. */
  datatype LoadError = NullLogs

  /** The least severity that the listener passes on to the cache. */
  const CaptureThreshold: LogLevel := Warning

  /** The listener's filter: only Warning and above reach the cache. */
  predicate IsCaptured(item: LogItem) {
    item.level.AtLeast(CaptureThreshold)
  }

  /**
   * The key an item's file is stored under: its forward-slash form when the
   * path is relative, and otherwise the path rewritten relative to the base
   * directory.
   */
  function FileFromWorkingDir(baseDirectory: string, file: string): (key: string)
    ensures '\\' !in key
    ensures |key| <= |file|
    ensures var p := BackSlashToForwardSlash(file);
            var d := DirectoryPrefix(BackSlashToForwardSlash(baseDirectory));
            if !IsRelativePath(file) && d <= p then d + key == p else key == p
  {
    if IsRelativePath(file) then BackSlashToForwardSlash(file)
    else MakeRelativePath(baseDirectory, file)
  }

  /**
   * The copy of `item` that the cache stores: every field is kept, except
   * that the file path is turned into its forward-slash form.
   */
  function StoredCopy(item: LogItem): (copy: LogItem)
    requires item.file.Some?
    ensures copy.line == item.line && copy.level == item.level
    ensures copy.message == item.message && copy.phase == item.phase
    ensures copy.file == Some(BackSlashToForwardSlash(item.file.value))
    ensures '\\' !in copy.file.value
  {
    item.(file := Some(BackSlashToForwardSlash(item.file.value)))
  }

  /** The items stored under exactly `file`, or none when the key is absent. */
  function Messages(logs: Logs, file: string): seq<LogItem> {
    if file in logs then logs[file] else []
  }

  /**
   * The dictionary after the cache records `item`: unchanged when the item
   * names no file, otherwise the stored copy appended under the item's key.
   */
  function Record(logs: Logs, baseDirectory: string, item: LogItem): (r: Logs)
    ensures item.file.None? ==> r == logs
    ensures item.file.Some? ==>
      var key := FileFromWorkingDir(baseDirectory, item.file.value);
      && r.Keys == logs.Keys + {key}
      && Messages(r, key) == Messages(logs, key) + [StoredCopy(item)]
      && forall k :: k in logs && k != key ==> r[k] == logs[k]
  {
    match item.file
    case None => logs
    case Some(f) =>
      var key := FileFromWorkingDir(baseDirectory, f);
      logs[key := Messages(logs, key) + [StoredCopy(item)]]
  }

  /**
   * The dictionary after the listener receives `item`: a captured item with a
   * file adds one entry under its key, any other item changes nothing.
   */
  function Capture(logs: Logs, baseDirectory: string, item: LogItem): (r: Logs)
    ensures !(IsCaptured(item) && item.file.Some?) ==> r == logs
    ensures IsCaptured(item) && item.file.Some? ==>
      var key := FileFromWorkingDir(baseDirectory, item.file.value);
      && r.Keys == logs.Keys + {key}
      && |Messages(r, key)| == |Messages(logs, key)| + 1
  {
    if IsCaptured(item) then Record(logs, baseDirectory, item) else logs
  }

  /** The dictionary after the listener receives `items`, first to last. */
  function CaptureAll(logs: Logs, baseDirectory: string, items: seq<LogItem>): Logs
    decreases |items|
  {
    if items == [] then logs
    else Capture(CaptureAll(logs, baseDirectory, items[..|items| - 1]), baseDirectory, items[|items| - 1])
  }

  /**
   * Reference definition of what the cache keeps for `key`: the stored copies
   * of the captured, file-scoped items of `items` whose key is `key`, in order.
   */
  function Kept(baseDirectory: string, items: seq<LogItem>, key: string): seq<LogItem>
    decreases |items|
  {
    if items == [] then []
    else Kept(baseDirectory, items[..|items| - 1], key) + KeptOne(baseDirectory, items[|items| - 1], key)
  }

  /** What the cache keeps for `key` of a single item: its stored copy, or nothing. */
  function KeptOne(baseDirectory: string, item: LogItem, key: string): seq<LogItem> {
    if IsCaptured(item) && item.file.Some? && FileFromWorkingDir(baseDirectory, item.file.value) == key
    then [StoredCopy(item)] else []
  }

  /** `after` keeps every key of `before` and extends each of its lists at the end. */
  ghost predicate AppendOnly(before: Logs, after: Logs) {
    forall k :: k in before ==> k in after && before[k] <= after[k]
  }

  // ---------------------------------------------------------------------------
  // The severity filter and the key

  /** The listener passes on exactly the warnings and the errors. */
  lemma CapturedIffWarningOrError(item: LogItem)
    ensures IsCaptured(item) <==> item.level == Warning || item.level == Error
  {
  }

  /** An item below the threshold leaves the dictionary exactly as it was. */
  lemma BelowThresholdIsIgnored(logs: Logs, baseDirectory: string, item: LogItem)
    requires !IsCaptured(item)
    ensures Capture(logs, baseDirectory, item) == logs
  {
  }

  /** An item without a file leaves the dictionary exactly as it was, whatever its severity. */
  lemma NullFileIsIgnored(logs: Logs, baseDirectory: string, item: LogItem)
    requires item.file.None?
    ensures Capture(logs, baseDirectory, item) == logs
  {
  }

  /**
   * Only a null file is skipped: a captured item whose file is the empty
   * string is recorded, and `IsRelativePath` of this model puts it under the
   * key "".
   */
  lemma EmptyFileIsRecorded(logs: Logs, baseDirectory: string, item: LogItem)
    requires IsCaptured(item) && item.file == Some("")
    ensures "" in Capture(logs, baseDirectory, item)
    ensures Messages(Capture(logs, baseDirectory, item), "") == Messages(logs, "") + [StoredCopy(item)]
  {
    assert IsRelativePath("");
    assert FileFromWorkingDir(baseDirectory, "") == "";
  }

  /** A relative path is keyed by its forward-slash form, which is relative and its own key. */
  lemma {:induction false} RelativeKey(baseDirectory: string, file: string)
    requires IsRelativePath(file)
    ensures FileFromWorkingDir(baseDirectory, file) == BackSlashToForwardSlash(file)
    ensures IsRelativePath(FileFromWorkingDir(baseDirectory, file))
    ensures FileFromWorkingDir(baseDirectory, FileFromWorkingDir(baseDirectory, file))
            == FileFromWorkingDir(baseDirectory, file)
  {
    ForwardSlashKeepsRelativity(file);
    ForwardSlashIdempotent(file);
  }

  /** Computing the key again from a relative key gives the same key. */
  lemma {:induction false} KeyIdempotent(baseDirectory: string, file: string)
    requires IsRelativePath(FileFromWorkingDir(baseDirectory, file))
    ensures FileFromWorkingDir(baseDirectory, FileFromWorkingDir(baseDirectory, file))
            == FileFromWorkingDir(baseDirectory, file)
  {
    ForwardSlashFixesSlashFree(FileFromWorkingDir(baseDirectory, file));
  }

  /**
   * The key of an absolute path outside the base directory is the path's
   * forward-slash form, and computing the key again from it gives the same key.
   */
  lemma {:induction false} KeyOutsideBaseIdempotent(baseDirectory: string, file: string)
    requires !IsRelativePath(file)
    requires !(DirectoryPrefix(BackSlashToForwardSlash(baseDirectory)) <= BackSlashToForwardSlash(file))
    ensures FileFromWorkingDir(baseDirectory, file) == BackSlashToForwardSlash(file)
    ensures FileFromWorkingDir(baseDirectory, FileFromWorkingDir(baseDirectory, file))
            == FileFromWorkingDir(baseDirectory, file)
  {
    var key := BackSlashToForwardSlash(file);
    ForwardSlashKeepsRelativity(file);
    ForwardSlashIdempotent(file);
    assert !IsRelativePath(key);
  }

  /**
   * The prefix strip that stands in for the path helper does not make every
   * key a fixpoint: with base `C:`, the file `C:\C:\a` is keyed `C:/a`, an
   * absolute path again, whose own key is `a`.
   */
  lemma NestedAbsoluteKeyNotIdempotent(drive: char, name: string)
    requires 'A' <= drive <= 'Z'
    requires '\\' !in name
    ensures var file := [drive, ':', '\\', drive, ':', '\\'] + name;
            && FileFromWorkingDir([drive, ':'], file) == [drive, ':', '/'] + name
            && FileFromWorkingDir([drive, ':'], FileFromWorkingDir([drive, ':'], file)) == name
            && FileFromWorkingDir([drive, ':'], FileFromWorkingDir([drive, ':'], file))
               != FileFromWorkingDir([drive, ':'], file)
  {
  }

  /**
   * An absolute Windows path below a rooted base directory (`C:\docs` and
   * `C:\docs\a.md`, say) is keyed by the part below the base directory
   * (`a.md`), while the stored copy keeps the whole path in forward-slash form
   * (`C:/docs/a.md`): the stored file is not the key. The directory may have
   * several levels and either separator, as long as it does not end in one.
   */
  lemma {:induction false} AbsolutePathBelowBase(drive: char, dir: string, name: string)
    requires 'A' <= drive <= 'Z'
    requires |dir| > 0 && !IsSeparator(dir[|dir| - 1])
    ensures var baseDirectory := [drive, ':', '\\'] + dir;
            var file := baseDirectory + "\\" + name;
            && FileFromWorkingDir(baseDirectory, file) == BackSlashToForwardSlash(name)
            && StoredCopy(LogItem(Some(file), "", Warning, "", "")).file
               == Some([drive, ':', '/'] + BackSlashToForwardSlash(dir) + "/" + BackSlashToForwardSlash(name))
  {
    var baseDirectory := [drive, ':', '\\'] + dir;
    var file := baseDirectory + "\\" + name;
    assert file[1] == ':';
    assert !IsRelativePath(file);
    ForwardSlashFixesSlashFree([drive, ':']);
    ForwardSlashConcat(['\\'], dir);
    ForwardSlashConcat([drive, ':'], ['\\'] + dir);
    assert baseDirectory == [drive, ':'] + (['\\'] + dir);
    assert BackSlashToForwardSlash(['\\']) == ['/'];
    var fwdBase := BackSlashToForwardSlash(baseDirectory);
    assert fwdBase == [drive, ':', '/'] + BackSlashToForwardSlash(dir);
    ForwardSlashConcat(baseDirectory, "\\");
    ForwardSlashConcat(baseDirectory + "\\", name);
    assert BackSlashToForwardSlash("\\") == "/";
    assert fwdBase[|fwdBase| - 1] != '/' by {
      assert fwdBase[|fwdBase| - 1] == BackSlashToForwardSlash(dir)[|dir| - 1];
    }
    assert DirectoryPrefix(fwdBase) == fwdBase + "/";
    var fwdName := BackSlashToForwardSlash(name);
    assert BackSlashToForwardSlash(file) == fwdBase + "/" + fwdName;
    assert (fwdBase + "/" + fwdName)[|fwdBase + "/"|..] == fwdName;
  }

  // ---------------------------------------------------------------------------
  // Recording is append-only

  /** A captured, file-scoped item becomes the last entry under its key; nothing else changes. */
  lemma CaptureAppendsLast(logs: Logs, baseDirectory: string, item: LogItem)
    requires IsCaptured(item) && item.file.Some?
    ensures var key := FileFromWorkingDir(baseDirectory, item.file.value);
            var r := Capture(logs, baseDirectory, item);
            && key in r
            && |r[key]| == |Messages(logs, key)| + 1
            && r[key][..|Messages(logs, key)|] == Messages(logs, key)
            && r[key][|r[key]| - 1] == StoredCopy(item)
            && forall k :: k != key ==> Messages(r, k) == Messages(logs, k)
  {
    var key := FileFromWorkingDir(baseDirectory, item.file.value);
    var r := Capture(logs, baseDirectory, item);
    assert r == Record(logs, baseDirectory, item);
    assert r[key] == Messages(logs, key) + [StoredCopy(item)];
  }

  /** One item received by the listener never removes or rewrites a stored entry. */
  lemma CaptureIsAppendOnly(logs: Logs, baseDirectory: string, item: LogItem)
    ensures AppendOnly(logs, Capture(logs, baseDirectory, item))
  {
    if IsCaptured(item) && item.file.Some? {
      var key := FileFromWorkingDir(baseDirectory, item.file.value);
      var r := Capture(logs, baseDirectory, item);
      assert r == Record(logs, baseDirectory, item);
      if key in logs {
        assert r[key] == logs[key] + [StoredCopy(item)];
      }
    }
  }

  /** Append-only growth composes: two append-only steps make one. */
  lemma AppendOnlyTransitive(a: Logs, b: Logs, c: Logs)
    requires AppendOnly(a, b) && AppendOnly(b, c)
    ensures AppendOnly(a, c)
  {
    forall k | k in a
      ensures k in c && a[k] <= c[k]
    {
      assert a[k] <= b[k] && b[k] <= c[k];
    }
  }

  /** However many items the listener receives, storage only ever grows at the ends of lists. */
  lemma {:induction false} CaptureAllIsAppendOnly(logs: Logs, baseDirectory: string, items: seq<LogItem>)
    ensures AppendOnly(logs, CaptureAll(logs, baseDirectory, items))
    decreases |items|
  {
    if items != [] {
      var earlier := CaptureAll(logs, baseDirectory, items[..|items| - 1]);
      CaptureAllIsAppendOnly(logs, baseDirectory, items[..|items| - 1]);
      CaptureIsAppendOnly(earlier, baseDirectory, items[|items| - 1]);
      AppendOnlyTransitive(logs, earlier, Capture(earlier, baseDirectory, items[|items| - 1]));
    }
  }

  /** One item received by the listener adds to the list under `key` exactly what `KeptOne` keeps. */
  lemma CaptureMessages(logs: Logs, baseDirectory: string, item: LogItem, key: string)
    ensures Messages(Capture(logs, baseDirectory, item), key) == Messages(logs, key) + KeptOne(baseDirectory, item, key)
  {
  }

  /**
   * After the listener receives `items`, the list under `key` is what was
   * there before followed by the kept copies of the items with that key, in
   * the order they were logged.
   */
  lemma {:induction false} CaptureAllMessages(logs: Logs, baseDirectory: string, items: seq<LogItem>, key: string)
    ensures Messages(CaptureAll(logs, baseDirectory, items), key)
            == Messages(logs, key) + Kept(baseDirectory, items, key)
    decreases |items|
  {
    if items != [] {
      var earlier, last := items[..|items| - 1], items[|items| - 1];
      var mid := CaptureAll(logs, baseDirectory, earlier);
      assert CaptureAll(logs, baseDirectory, items) == Capture(mid, baseDirectory, last);
      CaptureAllMessages(logs, baseDirectory, earlier, key);
      CaptureMessages(mid, baseDirectory, last, key);
      var before, kept, one := Messages(logs, key), Kept(baseDirectory, earlier, key), KeptOne(baseDirectory, last, key);
      assert Kept(baseDirectory, items, key) == kept + one;
      assert before + kept + one == before + (kept + one);
    }
  }

  /** Every entry the cache keeps has a captured severity and a file without backslashes. */
  lemma {:induction false} KeptEntriesAreCaptured(baseDirectory: string, items: seq<LogItem>, key: string)
    ensures forall e :: e in Kept(baseDirectory, items, key) ==>
              IsCaptured(e) && e.file.Some? && '\\' !in e.file.value
    decreases |items|
  {
    if items != [] {
      KeptEntriesAreCaptured(baseDirectory, items[..|items| - 1], key);
    }
  }

  // ---------------------------------------------------------------------------
  // The cache object

  /** The cache: the dictionary `_logs` and the lazily created listener. */
  class BuildMessageInfo {
    var logs: Logs
    var listener: Listener?

    /** The listener, once created, is the one bound to this cache. */
    ghost predicate Valid()
      reads this
    {
      listener != null ==> listener.owner == this
    }

    /** A new, empty cache. */
    constructor ()
      ensures Valid() && logs == map[] && listener == null
    {
      logs := map[];
      listener := null;
    }

    /** A cache holding a copy of a dictionary that is known not to be null. */
    constructor FromLogs(logs: Logs)
      ensures Valid() && this.logs == logs && listener == null
    {
      this.logs := logs;
      listener := null;
    }

    /**
     * Builds a cache from a decoded snapshot. A null dictionary is refused;
     * any other dictionary is copied.
     */
    static method Load(snapshot: Option<Logs>) returns (r: Result<BuildMessageInfo, LoadError>)
      ensures r.Failure? <==> snapshot.None?
      ensures r.Failure? ==> r.error == NullLogs
      ensures r.Success? ==> fresh(r.value) && r.value.Valid()
      ensures r.Success? ==> r.value.logs == snapshot.value && r.value.listener == null
    {
      if snapshot.None? {
        return Failure(NullLogs);
      }
      var info := new BuildMessageInfo.FromLogs(snapshot.value);
      r := Success(info);
    }

    /** The snapshot handed to the encoder: the whole dictionary, unfiltered. */
    method Save() returns (snapshot: Logs)
      ensures snapshot.Keys == logs.Keys
      ensures forall k :: k in logs ==> snapshot[k] == logs[k]
    {
      snapshot := logs;
    }

    /** The items stored under exactly `file`; a missing key gives none. The path is used as given. */
    method GetMessages(file: string) returns (messages: seq<LogItem>)
      ensures file in logs ==> messages == logs[file]
      ensures file !in logs ==> messages == []
    {
      if file in logs {
        messages := logs[file];
      } else {
        messages := [];
      }
    }

    /** The listener of this cache, created on the first call and returned again on every later one. */
    method GetListener() returns (l: Listener)
      requires Valid()
      modifies this`listener
      ensures Valid() && listener == l && l.owner == this
      ensures old(listener) != null ==> l == old(listener)
      ensures old(listener) == null ==> fresh(l)
    {
      if listener == null {
        listener := new Listener(this);
      }
      l := listener;
    }

    /** Logs every item stored under `file` into `channel`, in stored order; the cache is left alone. */
    method Replay(file: string, channel: Channel)
      modifies channel
      ensures channel.emitted == old(channel.emitted) + Messages(logs, file)
      ensures unchanged(this)
    {
      var items := GetMessages(file);
      var i := 0;
      while i < |items|
        invariant 0 <= i <= |items|
        invariant channel.emitted == old(channel.emitted) + items[..i]
      {
        channel.Log(items[i]);
        assert items[..i + 1] == items[..i] + [items[i]];
        i := i + 1;
      }
      assert items[..|items|] == items;
    }

    /**
     * Stores a copy of `item` under its key, creating the key's list when it
     * is missing; an item without a file is dropped.
     */
    method WriteLine(item: LogItem, baseDirectory: string)
      modifies this`logs
      ensures logs == Record(old(logs), baseDirectory, item)
    {
      if item.file.None? {
        return;
      }
      var file := item.file.value;
      var fileFromWorkingDir := BackSlashToForwardSlash(file);
      if !IsRelativePath(file) {
        fileFromWorkingDir := MakeRelativePath(baseDirectory, file);
      }
      assert fileFromWorkingDir == FileFromWorkingDir(baseDirectory, file);
      assert logs == old(logs);
      var logsPerFile: seq<LogItem>;
      if fileFromWorkingDir in logs {
        logsPerFile := logs[fileFromWorkingDir];
      } else {
        logsPerFile := [];
        logs := logs[fileFromWorkingDir := logsPerFile];
      }
      var copy := LogItem(
        Some(BackSlashToForwardSlash(file)), item.line, item.level, item.message, item.phase);
      assert copy == StoredCopy(item) && logsPerFile == Messages(old(logs), fileFromWorkingDir);
      logs := logs[fileFromWorkingDir := logsPerFile + [copy]];
    }
  }

  /** The listener attached to the global logger; it forwards warnings and errors to its cache. */
  class Listener {
    const owner: BuildMessageInfo

    constructor (owner: BuildMessageInfo)
      ensures this.owner == owner
    {
      this.owner := owner;
    }

    /** Hands `item` to the cache when its severity is at least Warning; otherwise does nothing. */
    method WriteLine(item: LogItem, baseDirectory: string)
      modifies owner`logs
      ensures owner.logs == Capture(old(owner.logs), baseDirectory, item)
      ensures IsCaptured(item) && item.file.Some? ==>
                AppendOnly(old(owner.logs), owner.logs)
                && owner.logs[FileFromWorkingDir(baseDirectory, item.file.value)]
                   == Messages(old(owner.logs), FileFromWorkingDir(baseDirectory, item.file.value)) + [StoredCopy(item)]
      ensures !(IsCaptured(item) && item.file.Some?) ==> owner.logs == old(owner.logs)
    {
      if IsCaptured(item) {
        owner.WriteLine(item, baseDirectory);
      }
      CaptureIsAppendOnly(old(owner.logs), baseDirectory, item);
    }
  }

  // ---------------------------------------------------------------------------
  // Clients of the cache

  /** Asking twice for the listener gives the same object, and only the first call allocates. */
  method ListenerIsMemoised(info: BuildMessageInfo) returns (first: Listener, second: Listener)
    requires info.Valid()
    modifies info`listener
    ensures first == second && first.owner == info
    ensures old(info.listener) != null ==> first == old(info.listener)
  {
    first := info.GetListener();
    second := info.GetListener();
  }

  /** Replaying a file twice logs its stored items twice, and the cache is unchanged. */
  method ReplayTwice(info: BuildMessageInfo, file: string, channel: Channel)
    modifies channel
    ensures channel.emitted == old(channel.emitted) + Messages(info.logs, file) + Messages(info.logs, file)
    ensures unchanged(info)
  {
    info.Replay(file, channel);
    info.Replay(file, channel);
  }

  /** Saving a cache and loading the snapshot back gives a cache with the same dictionary. */
  method SaveThenLoad(info: BuildMessageInfo) returns (loaded: Result<BuildMessageInfo, LoadError>)
    ensures loaded.Success? && fresh(loaded.value)
    ensures loaded.value.logs == info.logs
  {
    var snapshot := info.Save();
    loaded := BuildMessageInfo.Load(Some(snapshot));
  }
}
