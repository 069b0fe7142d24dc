/**
 * The window's record of downloaded files (`OpenedFile` and
 * `opened_files_local_` in main.cpp) and what the file watcher does with it.
 *
 * The map is keyed by remote path. Reading it with `operator[]` inserts a
 * blank `OpenedFile` when the key is absent; `Entry` and the updates below do
 * the same. Times are the integers `last_write_time` gives, supplied as a
 * function of the local path. The watcher visits the keys in ascending order
 * (a `std::map`).
 */
module Watching {
  import opened Text
  import Worker

  datatype OpenedFile = OpenedFile(localPath: string, remotePath: string, modified: int, uploadRequested: bool)

  type Files = map<string, OpenedFile>

  /** `OpenedFile{}`. */
  const BLANK := OpenedFile("", "", 0, false)

  /** `opened_files_local_[key]` read. */
  function Entry(files: Files, key: string): (f: OpenedFile)
    ensures key in files ==> f == files[key]
    ensures key !in files ==> f == BLANK
  {
    if key in files then files[key] else BLANK
  }

  /** The watcher uploads a file that changed on disk since it was last synchronised and is not already being uploaded. */
  predicate Due(f: OpenedFile, diskTime: string -> int)
  {
    !f.uploadRequested && diskTime(f.localPath) > f.modified
  }

  /** Every entry is filed under its own remote path, as the `DOWNLOAD` response files them. */
  predicate WellKeyed(files: Files)
  {
    forall k :: k in files ==> files[k].remotePath == k
  }

  // ---------------------------------------------------------------------------
  // Updates made by the response handlers
  // ---------------------------------------------------------------------------

  /** A `DOWNLOAD` response: a known file gets only a new time, a new one is recorded with the flag clear. */
  function Downloaded(files: Files, localPath: string, remotePath: string, time: int): (r: Files)
    ensures r.Keys == files.Keys + {remotePath}
    ensures remotePath in files ==> r[remotePath] == files[remotePath].(modified := time)
    ensures remotePath !in files ==> r[remotePath] == OpenedFile(localPath, remotePath, time, false)
    ensures forall k :: k in files && k != remotePath ==> r[k] == files[k]
  {
    if remotePath in files then files[remotePath := files[remotePath].(modified := time)]
    else files[remotePath := OpenedFile(localPath, remotePath, time, false)]
  }

  /** `DOWNLOAD` keeps every entry under its own remote path. */
  lemma DownloadedWellKeyed(files: Files, localPath: string, remotePath: string, time: int)
    requires WellKeyed(files)
    ensures WellKeyed(Downloaded(files, localPath, remotePath, time))
  {
  }

  /**
   * An `UPLOAD` response, or Ignore on a failed upload: the entry takes the
   * disk time of its local file and its flag is cleared.
   */
  function Settled(files: Files, remotePath: string, diskTime: string -> int): (r: Files)
    ensures r.Keys == files.Keys + {remotePath}
    ensures forall k :: k in files && k != remotePath ==> r[k] == files[k]
  {
    var f := Entry(files, remotePath);
    files[remotePath := f.(modified := diskTime(f.localPath), uploadRequested := false)]
  }

  /** After `Settled` the file is not due until its disk time moves past the recorded one. */
  lemma SettledNotDue(files: Files, remotePath: string, diskTime: string -> int, later: string -> int)
    ensures var f := Settled(files, remotePath, diskTime)[remotePath];
      !f.uploadRequested && f.localPath == Entry(files, remotePath).localPath
      && (Due(f, later) <==> later(f.localPath) > diskTime(f.localPath))
  {
  }

  /** `CONNECTED` clears every flag, so a reconnect can upload again. */
  function Reconnected(files: Files): (r: Files)
    ensures r.Keys == files.Keys
    ensures forall k :: k in files ==> r[k] == files[k].(uploadRequested := false)
  {
    map k | k in files :: files[k].(uploadRequested := false)
  }

  /** `UploadWatchedFile`: read the entry, put `Upload` for it and mark it requested (under its remote path). */
  function UploadWatched(files: Files, remotePath: string): (r: (Files, Worker.Command))
    ensures var f := Entry(files, remotePath);
      && r.1 == Worker.Upload(f.localPath, f.remotePath)
      && r.0.Keys == files.Keys + {remotePath, f.remotePath}
      && r.0[f.remotePath] == Entry(files[remotePath := f], f.remotePath).(uploadRequested := true)
      && forall k :: k in files && k != f.remotePath ==> r.0[k] == files[k]
  {
    var f := Entry(files, remotePath);
    var inserted := files[remotePath := f];
    (inserted[f.remotePath := Entry(inserted, f.remotePath).(uploadRequested := true)], Worker.Upload(f.localPath, f.remotePath))
  }

  // ---------------------------------------------------------------------------
  // The watcher's tick
  // ---------------------------------------------------------------------------

  /** `OnFileWatcherTimer` over `keys`, in order: the map afterwards and the commands put. */
  function Watch(files: Files, diskTime: string -> int, keys: seq<string>): (r: (Files, seq<Worker.Command>))
    decreases |keys|
  {
    if keys == [] then (files, [])
    else
      var f := Entry(files, keys[0]);
      if Due(f, diskTime) then
        var u := UploadWatched(files, f.remotePath);
        var rest := Watch(u.0, diskTime, keys[1..]);
        (rest.0, [u.1] + rest.1)
      else Watch(files, diskTime, keys[1..])
  }

  predicate Distinct(keys: seq<string>)
  {
    forall i, j :: 0 <= i < j < |keys| ==> keys[i] != keys[j]
  }

  /** The uploads a tick puts when entries are well keyed: one per due key, in key order. */
  function PendingUploads(files: Files, diskTime: string -> int, keys: seq<string>): seq<Worker.Command>
    decreases |keys|
  {
    if keys == [] then []
    else
      var k := keys[0];
      (if k in files && Due(files[k], diskTime) then [Worker.Upload(files[k].localPath, k)] else [])
      + PendingUploads(files, diskTime, keys[1..])
  }

  /** The map after a tick when entries are well keyed: every due key visited is marked requested, nothing else changes. */
  function Marked(files: Files, diskTime: string -> int, keys: seq<string>): (r: Files)
    ensures r.Keys == files.Keys
  {
    map k | k in files :: if k in keys && Due(files[k], diskTime) then files[k].(uploadRequested := true) else files[k]
  }

  /**
   * On a well-keyed map a tick puts an `Upload` only for due files, at most
   * one per file, and marks exactly those files requested.
   */
  lemma {:induction false} WatchWellKeyed(files: Files, diskTime: string -> int, keys: seq<string>)
    requires WellKeyed(files) && Distinct(keys)
    requires forall i :: 0 <= i < |keys| ==> keys[i] in files
    ensures Watch(files, diskTime, keys) == (Marked(files, diskTime, keys), PendingUploads(files, diskTime, keys))
    decreases |keys|
  {
    if keys != [] {
      var rest := keys[1..];
      assert Distinct(rest);
      if Due(files[keys[0]], diskTime) {
        var u := UploadWatched(files, keys[0]);
        DueStep(files, diskTime, keys);
        WatchWellKeyed(u.0, diskTime, rest);
      } else {
        IdleStep(files, diskTime, keys);
        WatchWellKeyed(files, diskTime, rest);
      }
    } else {
      assert Marked(files, diskTime, keys) == files;
    }
  }

  /** The first key of a tick is not due: the tick is the tick over the other keys. */
  lemma IdleStep(files: Files, diskTime: string -> int, keys: seq<string>)
    requires keys != [] && keys[0] in files && !Due(files[keys[0]], diskTime)
    ensures Marked(files, diskTime, keys[1..]) == Marked(files, diskTime, keys)
    ensures PendingUploads(files, diskTime, keys) == PendingUploads(files, diskTime, keys[1..])
    ensures Watch(files, diskTime, keys) == Watch(files, diskTime, keys[1..])
  {
    var rest := keys[1..];
    forall j | j in files
      ensures (j in rest && Due(files[j], diskTime)) <==> (j in keys && Due(files[j], diskTime))
    {
      if j in keys && j != keys[0] {
        var i :| 0 <= i < |keys| && keys[i] == j;
        assert rest[i - 1] == j;
      }
    }
    assert [] + PendingUploads(files, diskTime, rest) == PendingUploads(files, diskTime, rest);
  }

  /** The first key of a tick is due: it is marked and the rest of the tick sees the same pending uploads. */
  lemma DueStep(files: Files, diskTime: string -> int, keys: seq<string>)
    requires WellKeyed(files) && Distinct(keys) && keys != []
    requires forall i :: 0 <= i < |keys| ==> keys[i] in files
    requires Due(files[keys[0]], diskTime)
    ensures var u := UploadWatched(files, keys[0]);
      && WellKeyed(u.0)
      && u.0 == files[keys[0] := files[keys[0]].(uploadRequested := true)]
      && PendingUploads(u.0, diskTime, keys[1..]) == PendingUploads(files, diskTime, keys[1..])
      && Marked(u.0, diskTime, keys[1..]) == Marked(files, diskTime, keys)
      && forall i :: 0 <= i < |keys[1..]| ==> keys[1..][i] in u.0
  {
    var k := keys[0];
    var rest := keys[1..];
    assert k !in rest by {
      forall i | 0 <= i < |rest| ensures rest[i] != k { assert rest[i] == keys[i + 1]; }
    }
    MarkOne(files, k);
    var marked := files[k := files[k].(uploadRequested := true)];
    PendingUnchanged(files, marked, diskTime, rest);
    MarkedStep(files, diskTime, keys);
  }

  /** On a well-keyed map, `UploadWatchedFile` of a key marks that key's entry and keeps the map well keyed. */
  lemma MarkOne(files: Files, k: string)
    requires WellKeyed(files) && k in files
    ensures UploadWatched(files, k).0 == files[k := files[k].(uploadRequested := true)]
    ensures WellKeyed(files[k := files[k].(uploadRequested := true)])
  {
    assert files[k := files[k]] == files;
  }

  /** Marking the due first key, then the rest, is marking all the keys. */
  lemma MarkedStep(files: Files, diskTime: string -> int, keys: seq<string>)
    requires keys != [] && keys[0] in files && Due(files[keys[0]], diskTime) && keys[0] !in keys[1..]
    ensures Marked(files[keys[0] := files[keys[0]].(uploadRequested := true)], diskTime, keys[1..]) == Marked(files, diskTime, keys)
  {
    var k := keys[0];
    var rest := keys[1..];
    var marked := files[k := files[k].(uploadRequested := true)];
    forall j | j in files
      ensures (j in keys) == (j == k || j in rest)
    {
      if j in keys && j != k {
        var i :| 0 <= i < |keys| && keys[i] == j;
        assert rest[i - 1] == j;
      }
    }
  }

  /** Pending uploads over `keys` depend only on the entries of `keys`. */
  lemma {:induction false} PendingUnchanged(a: Files, b: Files, diskTime: string -> int, keys: seq<string>)
    requires forall i :: 0 <= i < |keys| ==> (keys[i] in a <==> keys[i] in b)
    requires forall i :: 0 <= i < |keys| && keys[i] in a ==> a[keys[i]] == b[keys[i]]
    ensures PendingUploads(a, diskTime, keys) == PendingUploads(b, diskTime, keys)
    decreases |keys|
  {
    if keys != [] {
      PendingUnchanged(a, b, diskTime, keys[1..]);
    }
  }

  /** No visited key is due any longer: nothing is pending. */
  lemma {:induction false} NothingPending(files: Files, diskTime: string -> int, keys: seq<string>)
    requires forall i :: 0 <= i < |keys| && keys[i] in files ==> !Due(files[keys[i]], diskTime)
    ensures PendingUploads(files, diskTime, keys) == []
    decreases |keys|
  {
    if keys != [] {
      NothingPending(files, diskTime, keys[1..]);
    }
  }

  /** A second tick before any upload completes puts nothing. */
  lemma SecondTickIdle(files: Files, diskTime: string -> int, keys: seq<string>)
    requires WellKeyed(files) && Distinct(keys)
    requires forall i :: 0 <= i < |keys| ==> keys[i] in files
    ensures Watch(Watch(files, diskTime, keys).0, diskTime, keys).1 == []
  {
    WatchWellKeyed(files, diskTime, keys);
    var after := Marked(files, diskTime, keys);
    assert WellKeyed(after);
    WatchWellKeyed(after, diskTime, keys);
    NothingPending(after, diskTime, keys);
  }

  // ---------------------------------------------------------------------------
  // Keys in ascending order
  // ---------------------------------------------------------------------------

  predicate IsLeast(k: string, keys: set<string>)
  {
    forall j :: j in keys ==> !Less(j, k)
  }

  lemma LeastExists(keys: set<string>)
    requires keys != {}
    ensures exists k :: k in keys && IsLeast(k, keys)
    decreases |keys|
  {
    var x :| x in keys;
    LessIrreflexive(x);
    if keys != {x} {
      var others := keys - {x};
      LeastExists(others);
      var m :| m in others && IsLeast(m, others);
      if Less(x, m) {
        forall j | j in keys
          ensures !Less(j, x)
        {
          if j != x && Less(j, x) {
            LessTransitive(j, x, m);
          }
        }
      } else {
        assert IsLeast(m, keys);
      }
    }
  }

  lemma LeastUnique(a: string, b: string, keys: set<string>)
    requires a in keys && b in keys && IsLeast(a, keys) && IsLeast(b, keys)
    ensures a == b
  {
    LessTotal(a, b);
  }

  /** The keys of a `std::map` in iteration order: least first (see `SortedKeysAscending`). */
  ghost function SortedKeys(keys: set<string>): (r: seq<string>)
    ensures |r| == |keys|
    ensures forall k :: k in r <==> k in keys
    decreases |keys|
  {
    if keys == {} then []
    else
      LeastExists(keys);
      var k :| k in keys && IsLeast(k, keys);
      [k] + SortedKeys(keys - {k})
  }

  lemma SortedKeysUnfold(keys: set<string>, k: string)
    requires k in keys && IsLeast(k, keys)
    ensures SortedKeys(keys) == [k] + SortedKeys(keys - {k})
  {
    var r := SortedKeys(keys);
    assert r[0] in keys && IsLeast(r[0], keys);
    LeastUnique(k, r[0], keys);
  }

  /** The keys come in strictly ascending order. */
  lemma {:induction false} SortedKeysAscending(keys: set<string>)
    ensures var r := SortedKeys(keys); forall i, j :: 0 <= i < j < |r| ==> Less(r[i], r[j])
    decreases |keys|
  {
    if keys != {} {
      LeastExists(keys);
      var k :| k in keys && IsLeast(k, keys);
      SortedKeysUnfold(keys, k);
      SortedKeysAscending(keys - {k});
      var rest := SortedKeys(keys - {k});
      forall j | 0 <= j < |rest|
        ensures Less(k, rest[j])
      {
        assert rest[j] in keys - {k};
        LessTotal(k, rest[j]);
      }
      AscendingCons(k, rest);
    }
  }

  lemma AscendingCons(k: string, rest: seq<string>)
    requires forall j :: 0 <= j < |rest| ==> Less(k, rest[j])
    requires forall i, j :: 0 <= i < j < |rest| ==> Less(rest[i], rest[j])
    ensures var r := [k] + rest; forall i, j :: 0 <= i < j < |r| ==> Less(r[i], r[j])
  {
    var r := [k] + rest;
    forall i, j | 0 <= i < j < |r|
      ensures Less(r[i], r[j])
    {
      assert r[j] == rest[j - 1];
      if i > 0 {
        assert r[i] == rest[i - 1];
      }
    }
  }

  /** Ascending keys are distinct. */
  lemma SortedKeysDistinct(keys: set<string>)
    ensures Distinct(SortedKeys(keys))
  {
    var r := SortedKeys(keys);
    SortedKeysAscending(keys);
    forall i, j | 0 <= i < j < |r|
      ensures r[i] != r[j]
    {
      LessIrreflexive(r[i]);
    }
  }

  /** The watcher's second tick, over the map's keys in order, puts nothing when the first one's uploads are still outstanding. */
  lemma SecondWatcherTickIdle(files: Files, diskTime: string -> int)
    requires WellKeyed(files)
    ensures var first := Watch(files, diskTime, SortedKeys(files.Keys));
      Watch(first.0, diskTime, SortedKeys(first.0.Keys)).1 == []
  {
    var keys := SortedKeys(files.Keys);
    SortedKeysDistinct(files.Keys);
    WatchWellKeyed(files, diskTime, keys);
    SecondTickIdle(files, diskTime, keys);
  }
}
