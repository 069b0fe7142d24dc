/**
 * `SftpguiFrame` (main.cpp): the window's state and the handlers that change
 * it. Commands for the SFTP worker go out through `outbox`, the frame's
 * `Channel`.
 *
 * What the window's widgets and dialogs supply is passed in: the list
 * widget's highlighted row and selected rows, the button chosen in a failure
 * dialog, the password typed, whether an editor is configured, the
 * temporary directory, the current date text and `last_write_time` of local
 * files. The widget's rows are kept in `shown`, since they are not always
 * `current_dir_list_`.
 *
 * `OnItemActivated` reads the activated entry from the widget's rows, where
 * the source reads `current_dir_list_[n]`; `ActivatedAsWritten` keeps the
 * source's reading, which is out of range while the `..` placeholder is
 * shown. `RememberSelected` skips rows that are out of range (see
 * `Selection.Remembered`).
 */
module Controller {
  import opened Wrappers
  import opened Text
  import opened Paths
  import opened Listing
  import opened Sorting
  import opened Selection
  import opened Watching
  import opened Messages
  import opened Channels
  import opened Failures
  import Worker

  /** The button chosen in a failure dialog, `Retry` (`wxID_YES`) or `Ignore`. */
  datatype Button = Retry | Ignore

  /** The entry shown when a listing fails on an empty list: a `..` directory with the other fields at their defaults. */
  const PLACEHOLDER := DirEntry("..", 0, 0, None, "", "", "", Some(true))

  /** The directory under `<temp>/sftpgui/` that holds one connection's files. */
  function ConnName(username: string, host: string, port: int): string
  {
    username + "@" + host + "_" + IntToString(port)
  }

  lemma ConnNameIsName(username: string, host: string, port: int)
    requires '/' !in username && '\\' !in username && '/' !in host && '\\' !in host
    ensures IsName(ConnName(username, host, port))
  {
    var c := ConnName(username, host, port);
    var digits := NatToString(if port < 0 then -port else port);
    NatToStringDigits(if port < 0 then -port else port);
    assert forall i :: 0 <= i < |digits| ==> digits[i] != '/' && digits[i] != '\\';
    assert c[|username|] == '@';
  }

  /** `current_dir_list_[n]` as written: undefined (`None`) when `n` is not a position of the list. */
  function ActivatedAsWritten(list: seq<DirEntry>, n: int): (r: Option<DirEntry>)
    ensures r.Some? <==> 0 <= n < |list|
    ensures r.Some? ==> r.value == list[n]
  {
    if 0 <= n < |list| then Some(list[n]) else None
  }

  /** Activating the placeholder, the only row shown while the list is empty, reads past the end of the list. */
  lemma PlaceholderActivationUndefined()
    ensures |[PLACEHOLDER]| == 1 && ActivatedAsWritten([], 0) == None
  {
  }

  /** Activating the placeholder as shown is entering `..`: the directory the parent-directory menu opens. */
  lemma PlaceholderOpensParent(dir: string)
    ensures IsDir(PLACEHOLDER)
    ensures ChildOf(dir, PLACEHOLDER.name) == ParentOf(dir)
  {
    assert dir + "/" + ".." == dir + "/..";
  }

  /** The frame's fields, as one value. */
  datatype View = View(
    currentDir: string,
    currentDirList: seq<DirEntry>,
    sortColumn: int,
    sortDesc: bool,
    openedFiles: Files,
    storedHighlighted: string,
    storedSelected: set<string>,
    reconnectCountdown: int,
    reconnectError: string,
    reconnectTimerRunning: bool,
    latestStatus: string,
    status: string,
    shown: seq<DirEntry>,
    closed: bool)

  /** The status after putting `issued` from a status `status`: each `Upload` shows its remote path. */
  function WatchStatus(status: string, issued: seq<Worker.Command>): string
    decreases |issued|
  {
    if issued == [] then status
    else
      var before := WatchStatus(status, issued[..|issued| - 1]);
      match issued[|issued| - 1]
      case Upload(_, remotePath) => "Uploading " + remotePath + " ..."
      case _ => before
  }

  /** A tick over `[k] + rest` is the tick over `[k]`, then the tick over `rest`. */
  lemma WatchConcat(files: Files, diskTime: string -> int, k: string, rest: seq<string>)
    ensures var first := Watch(files, diskTime, [k]);
      var next := Watch(first.0, diskTime, rest);
      Watch(files, diskTime, [k] + rest) == (next.0, first.1 + next.1)
  {
    assert ([k] + rest)[1..] == rest;
    assert [k][1..] == [];
    var f := Watching.Entry(files, k);
    if Due(f, diskTime) {
      var u := UploadWatched(files, f.remotePath);
      assert Watch(u.0, diskTime, []) == (u.0, []);
      assert [u.1] + [] == [u.1];
      assert [u.1] + Watch(u.0, diskTime, rest).1 == [u.1] + Watch(u.0, diskTime, rest).1;
    } else {
      assert Watch(files, diskTime, []) == (files, []);
      assert [] + Watch(files, diskTime, rest).1 == Watch(files, diskTime, rest).1;
    }
  }

  lemma Associative<T>(a: seq<T>, b: seq<T>, c: seq<T>)
    ensures a + (b + c) == (a + b) + c
  {
  }

  /** A tick over the keys of `remaining` in order starts with the least of them. */
  lemma WatchFrom(files: Files, diskTime: string -> int, remaining: set<string>, k: string)
    requires k in remaining && IsLeast(k, remaining)
    ensures var first := Watch(files, diskTime, [k]);
      var next := Watch(first.0, diskTime, SortedKeys(remaining - {k}));
      Watch(files, diskTime, SortedKeys(remaining)) == (next.0, first.1 + next.1)
  {
    SortedKeysUnfold(remaining, k);
    WatchConcat(files, diskTime, k, SortedKeys(remaining - {k}));
  }

  /** The status after commands `a` then `b` is the status after `b` from the status after `a`. */
  lemma {:induction false} WatchStatusAppend(status: string, a: seq<Worker.Command>, b: seq<Worker.Command>)
    ensures WatchStatus(status, a + b) == WatchStatus(WatchStatus(status, a), b)
    decreases |b|
  {
    if b == [] {
      assert a + b == a;
    } else {
      WatchStatusAppend(status, a, b[..|b| - 1]);
      assert (a + b)[..|a + b| - 1] == a + b[..|b| - 1];
      assert (a + b)[|a + b| - 1] == b[|b| - 1];
    }
  }

  class Frame {
    const username: string
    const host: string
    const port: int
    /** `sftp_thread_channel_`. */
    const outbox: Channel<Worker.Command>

    var currentDir: string
    var currentDirList: seq<DirEntry>
    var sortColumn: int
    var sortDesc: bool
    var openedFiles: Files
    var storedHighlighted: string
    var storedSelected: set<string>
    var reconnectCountdown: int
    var reconnectError: string
    /** Whether `reconnect_timer_` is running. */
    var reconnectTimerRunning: bool
    var latestStatus: string
    /** The status bar. */
    var status: string
    /** The rows the list widget shows. */
    var shown: seq<DirEntry>
    /** Whether the window was closed. */
    var closed: bool

    function State(): View
      reads this
    {
      View(currentDir, currentDirList, sortColumn, sortDesc, openedFiles, storedHighlighted, storedSelected,
           reconnectCountdown, reconnectError, reconnectTimerRunning, latestStatus, status, shown, closed)
    }

    /** The widget shows `current_dir_list_`, or only the `..` placeholder while that list is empty. */
    predicate Shows()
      reads this
    {
      shown == currentDirList || (currentDirList == [] && shown == [PLACEHOLDER])
    }

    /** The `Download` command for a remote file: its normalized path, and the local copy's path. */
    function DownloadFor(remotePath: string, tempDir: string): Worker.Command
    {
      Worker.Download(ScratchPath(tempDir, ConnName(username, host, port), remotePath), Normalize(remotePath))
    }

    /** The window opens, asks the worker to connect and says so. */
    constructor (username: string, host: string, port: int)
      ensures this.username == username && this.host == host && this.port == port
      ensures fresh(outbox) && outbox.queue == [Worker.Connect(username, host, port)]
      ensures State() == View("", [], 0, false, map[], "", {}, 0, "", false, "", CONNECTING, [], false)
      ensures Shows()
    {
      this.username := username;
      this.host := host;
      this.port := port;
      var channel := new Channel<Worker.Command>();
      channel.Put(Worker.Connect(username, host, port));
      outbox := channel;
      currentDir := "";
      currentDirList := [];
      sortColumn := 0;
      sortDesc := false;
      openedFiles := map[];
      storedHighlighted := "";
      storedSelected := {};
      reconnectCountdown := 0;
      reconnectError := "";
      reconnectTimerRunning := false;
      latestStatus := "";
      status := CONNECTING;
      shown := [];
      closed := false;
    }

    // -------------------------------------------------------------------------
    // Selection
    // -------------------------------------------------------------------------

    /** `RememberSelected`, given the widget's highlighted row and selected rows. */
    method RememberSelected(highlighted: int, rows: seq<int>)
      requires Shows()
      modifies this
      ensures Shows()
      ensures var kept := Remembered(old(currentDirList), highlighted, rows);
        State() == old(State()).(storedHighlighted := kept.0, storedSelected := kept.1)
    {
      var list := currentDirList;
      var name := if 0 <= highlighted < |list| then list[highlighted].name else "";
      var names := {};
      var i := 0;
      while i < |rows|
        invariant 0 <= i <= |rows|
        invariant names == SelectedNames(list, rows[..i])
        invariant unchanged(this)
      {
        SelectedNamesStep(list, rows, i);
        if 0 <= rows[i] < |list| {
          names := names + {list[rows[i]].name};
        }
        i := i + 1;
      }
      assert rows[..|rows|] == rows;
      storedHighlighted := name;
      storedSelected := names;
    }

    /** `RecallSelected`: the row to highlight and the rows to select in the current list. */
    method RecallSelected() returns (highlight: int, selection: seq<int>)
      ensures highlight == HighlightRow(currentDirList, storedHighlighted)
      ensures selection == SelectedRows(currentDirList, storedSelected)
    {
      highlight, selection := RecallRows(currentDirList, storedHighlighted, storedSelected);
    }

    /** `SortAndPopulateDir`: sort the list by the current column and show it. */
    method SortAndPopulateDir()
      modifies this
      ensures shown == currentDirList
      ensures var list := Sort(old(sortColumn), old(sortDesc), old(currentDirList));
        State() == old(State()).(currentDirList := list, shown := list)
    {
      currentDirList := Sort(sortColumn, sortDesc, currentDirList);
      shown := currentDirList;
    }

    /** `RefreshDir`: remember or forget the selection, then ask for the listing of `path`. */
    method RefreshDir(path: string, preserveSelection: bool, highlighted: int, rows: seq<int>)
      requires Shows()
      modifies this, outbox
      ensures Shows()
      ensures var kept := if preserveSelection then Remembered(old(currentDirList), highlighted, rows) else ("", {});
        State() == old(State()).(status := RETRIEVING, storedHighlighted := kept.0, storedSelected := kept.1)
      ensures outbox.queue == old(outbox.queue) + [Worker.GetDir(path)]
    {
      status := RETRIEVING;
      if preserveSelection {
        RememberSelected(highlighted, rows);
      } else {
        storedSelected := {};
        storedHighlighted := "";
      }
      outbox.Put(Worker.GetDir(path));
    }

    /** A click on column header `col`: toggle the order, re-sort, and restore the selection. */
    method ColumnClick(col: int, highlighted: int, rows: seq<int>) returns (highlight: int, selection: seq<int>)
      requires Shows()
      modifies this
      ensures Shows()
      ensures var t := Toggle(old(sortColumn), old(sortDesc), col);
        var kept := Remembered(old(currentDirList), highlighted, rows);
        var list := Sort(t.0, t.1, old(currentDirList));
        && State() == old(State()).(sortColumn := t.0, sortDesc := t.1, storedHighlighted := kept.0,
                                    storedSelected := kept.1, currentDirList := list, shown := list)
        && highlight == HighlightRow(list, kept.0)
        && selection == SelectedRows(list, kept.1)
    {
      ToggleSort(col);
      RememberSelected(highlighted, rows);
      SortAndPopulateDir();
      highlight, selection := RecallSelected();
    }

    /** The first step of a header click: the column and direction to sort by. */
    method ToggleSort(col: int)
      requires Shows()
      modifies this
      ensures Shows()
      ensures var t := Toggle(old(sortColumn), old(sortDesc), col);
        State() == old(State()).(sortColumn := t.0, sortDesc := t.1)
    {
      if sortColumn == col {
        sortDesc := !sortDesc;
      } else {
        sortDesc := false;
        sortColumn := col;
      }
    }

    // -------------------------------------------------------------------------
    // Responses from the worker
    // -------------------------------------------------------------------------

    /** `CONNECTED`: adopt the home directory if none is open, clear every upload flag, list the directory. */
    method OnConnected(homeDir: string)
      requires Shows()
      modifies this, outbox
      ensures Shows()
      ensures var dir := if old(currentDir) == "" then homeDir else old(currentDir);
        && State() == old(State()).(currentDir := dir, openedFiles := Reconnected(old(openedFiles)),
                                    status := RETRIEVING, storedHighlighted := "", storedSelected := {})
        && outbox.queue == old(outbox.queue) + [Worker.GetDir(dir)]
    {
      if currentDir == "" {
        currentDir := homeDir;
      }
      ClearUploadFlags();
      status := CONNECTED_STATUS;
      RefreshDir(currentDir, false, 0, []);
    }

    /** The loop of `CONNECTED` that clears `upload_requested` on every opened file. */
    method ClearUploadFlags()
      requires Shows()
      modifies this
      ensures Shows()
      ensures State() == old(State()).(openedFiles := Reconnected(old(openedFiles)))
    {
      var files := openedFiles;
      var remaining := files.Keys;
      while remaining != {}
        invariant remaining <= openedFiles.Keys && files.Keys == openedFiles.Keys
        invariant forall k :: k in remaining ==> files[k] == openedFiles[k]
        invariant forall k :: k in openedFiles && k !in remaining ==> files[k] == openedFiles[k].(uploadRequested := false)
        invariant unchanged(this)
        decreases remaining
      {
        var k :| k in remaining;
        files := files[k := files[k].(uploadRequested := false)];
        remaining := remaining - {k};
      }
      assert files == Reconnected(openedFiles);
      openedFiles := files;
    }

    /** `NEED_PASSWD`: send the password the user typed. */
    method OnNeedPassword(password: string)
      modifies outbox
      ensures outbox.queue == old(outbox.queue) + [Worker.Password(password)]
    {
      outbox.Put(Worker.Password(password));
    }

    /** `GET_DIR`: take the listing, sort and show it, restore the selection, and show the idle status. */
    method OnDirListed(dir: string, entries: seq<DirEntry>, now: string) returns (highlight: int, selection: seq<int>)
      requires Shows()
      modifies this
      ensures Shows()
      ensures var list := Sort(old(sortColumn), old(sortDesc), entries);
        var latest := if old(latestStatus) == "" then "Refreshed dir list at " + now + "." else old(latestStatus);
        && State() == old(State()).(currentDir := dir, currentDirList := list, shown := list,
                                    latestStatus := latest, status := IdleStatus(|entries|, latest))
        && highlight == HighlightRow(list, old(storedHighlighted))
        && selection == SelectedRows(list, old(storedSelected))
    {
      TakeListing(dir, entries);
      highlight, selection := RecallSelected();
      if latestStatus == "" {
        latestStatus := "Refreshed dir list at " + now + ".";
      }
      SetIdleStatusText();
    }

    /** The first part of `GET_DIR`: the listing becomes the current directory's, sorted and shown. */
    method TakeListing(dir: string, entries: seq<DirEntry>)
      modifies this
      ensures var list := Sort(old(sortColumn), old(sortDesc), entries);
        State() == old(State()).(currentDir := dir, currentDirList := list, shown := list)
      ensures shown == currentDirList
    {
      currentDirList := entries;
      currentDir := dir;
      SortAndPopulateDir();
    }

    /** `SetIdleStatusText`. */
    method SetIdleStatusText()
      requires Shows()
      modifies this
      ensures Shows()
      ensures State() == old(State()).(status := IdleStatus(|old(currentDirList)|, old(latestStatus)))
    {
      var s := NatToString(|currentDirList|) + " items";
      if latestStatus != "" {
        s := s + ". " + latestStatus;
      }
      status := s;
    }

    /** `DOWNLOAD`: record the file's disk time (and paths, if new), then refresh keeping the selection. */
    method OnDownloaded(localPath: string, remotePath: string, diskTime: int, now: string, highlighted: int, rows: seq<int>)
      requires Shows()
      modifies this, outbox
      ensures Shows()
      ensures var kept := Remembered(old(currentDirList), highlighted, rows);
        && State() == old(State()).(openedFiles := Downloaded(old(openedFiles), localPath, remotePath, diskTime),
                                    latestStatus := "Downloaded " + remotePath + " at " + now + ".",
                                    status := RETRIEVING, storedHighlighted := kept.0, storedSelected := kept.1)
        && outbox.queue == old(outbox.queue) + [Worker.GetDir(old(currentDir))]
    {
      if remotePath in openedFiles {
        openedFiles := openedFiles[remotePath := openedFiles[remotePath].(modified := diskTime)];
      } else {
        openedFiles := openedFiles[remotePath := OpenedFile(localPath, remotePath, diskTime, false)];
      }
      latestStatus := "Downloaded " + remotePath + " at " + now + ".";
      RefreshDir(currentDir, true, highlighted, rows);
    }

    /** `UPLOAD`: the file is in sync at its current disk time; refresh keeping the selection. */
    method OnUploaded(remotePath: string, diskTime: string -> int, now: string, highlighted: int, rows: seq<int>)
      requires Shows()
      modifies this, outbox
      ensures Shows()
      ensures var kept := Remembered(old(currentDirList), highlighted, rows);
        && State() == old(State()).(openedFiles := Settled(old(openedFiles), remotePath, diskTime),
                                    latestStatus := "Uploaded " + remotePath + " at " + now + ".",
                                    status := RETRIEVING, storedHighlighted := kept.0, storedSelected := kept.1)
        && outbox.queue == old(outbox.queue) + [Worker.GetDir(old(currentDir))]
    {
      var f := Watching.Entry(openedFiles, remotePath);
      f := f.(modified := diskTime(f.localPath));
      f := f.(uploadRequested := false);
      openedFiles := openedFiles[remotePath := f];
      latestStatus := "Uploaded " + remotePath + " at " + now + ".";
      RefreshDir(currentDir, true, highlighted, rows);
    }

    /** `DOWNLOAD_FAILED` and `DOWNLOAD_FAILED_PERMISSION`: retry the download, or show the failure. */
    method OnDownloadFailed(f: Failure, choice: Button, editorSet: bool, tempDir: string)
      requires f.DownloadFailed? || f.DownloadFailedPermission?
      requires Shows()
      modifies this, outbox
      ensures Shows()
      ensures choice == Retry ==>
        && State() == old(State())
        && outbox.queue == old(outbox.queue) + (if editorSet then [DownloadFor(f.remotePath, tempDir)] else [])
      ensures choice == Ignore ==> State() == old(State()).(status := FailureText(f)) && outbox.queue == old(outbox.queue)
    {
      if choice == Retry {
        DownloadFile(f.remotePath, editorSet, tempDir);
      } else {
        status := FailureText(f);
      }
    }

    /** `UPLOAD_FAILED`, `_PERMISSION` and `_SPACE`: retry the upload, or take the file as in sync and show the failure. */
    method OnUploadFailed(f: Failure, choice: Button, diskTime: string -> int)
      requires f.UploadFailed? || f.UploadFailedPermission? || f.UploadFailedSpace?
      requires Shows()
      modifies this, outbox
      ensures Shows()
      ensures choice == Retry ==> var u := UploadWatched(old(openedFiles), f.remotePath);
        && State() == old(State()).(openedFiles := u.0, status := "Uploading " + u.1.remotePath + " ...")
        && outbox.queue == old(outbox.queue) + [u.1]
      ensures choice == Ignore ==>
        && State() == old(State()).(openedFiles := Settled(old(openedFiles), f.remotePath, diskTime), status := FailureText(f))
        && outbox.queue == old(outbox.queue)
    {
      if choice == Retry {
        UploadWatchedFile(f.remotePath);
      } else {
        var g := Watching.Entry(openedFiles, f.remotePath);
        g := g.(modified := diskTime(g.localPath));
        g := g.(uploadRequested := false);
        openedFiles := openedFiles[f.remotePath := g];
        status := FailureText(f);
      }
    }

    /** `DIR_LIST_FAILED` and `FILE_NOT_FOUND`: on an empty list show the `..` placeholder (the list stays empty); show the failure. */
    method OnListingFailed(f: Failure)
      requires f.DirListFailedPermission? || f.FileNotFound?
      requires Shows()
      modifies this
      ensures Shows()
      ensures old(currentDirList) == [] ==> State() == old(State()).(shown := [PLACEHOLDER], status := FailureText(f))
      ensures old(currentDirList) != [] ==> State() == old(State()).(status := FailureText(f))
    {
      if |currentDirList| == 0 {
        shown := [PLACEHOLDER];
      }
      status := FailureText(f);
    }

    /** `ERROR_CONNECTION`: keep the prettified error and start the five-second countdown. */
    method OnConnectionError(error: string)
      requires Shows()
      modifies this
      ensures Shows()
      ensures State() == old(State()).(reconnectError := Pretty(error), status := ConnectionErrorStatus(error),
                                       reconnectCountdown := RECONNECT_COUNTDOWN, reconnectTimerRunning := true)
    {
      var e := Pretty(error);
      reconnectError := e;
      status := e + " Reconnecting in 5 seconds...";
      reconnectCountdown := 5 - 1;
      reconnectTimerRunning := true;
    }

    /** `ERROR`: the window closes. */
    method OnError(error: string)
      requires Shows()
      modifies this
      ensures Shows()
      ensures State() == old(State()).(closed := true)
    {
      closed := true;
    }

    // -------------------------------------------------------------------------
    // Timers
    // -------------------------------------------------------------------------

    /** A tick of `reconnect_timer_`: count down, or stop the timer and reconnect with the window's own credentials. */
    method ReconnectTick()
      requires reconnectTimerRunning
      requires Shows()
      modifies this, outbox
      ensures Shows()
      ensures var t := Tick(old(reconnectCountdown), old(reconnectError));
        && State() == old(State()).(reconnectCountdown := t.countdown, status := t.status,
                                    reconnectTimerRunning := !t.reconnect)
        && outbox.queue == old(outbox.queue) + (if t.reconnect then [Worker.Connect(username, host, port)] else [])
    {
      if reconnectCountdown > 0 {
        var s := IntToString(reconnectCountdown);
        status := reconnectError + " Reconnecting in " + s + " seconds...";
        reconnectCountdown := reconnectCountdown - 1;
        return;
      }
      reconnectTimerRunning := false;
      outbox.Put(Worker.Connect(username, host, port));
      status := reconnectError + " Reconnecting...";
    }

    /** `UploadWatchedFile`: put `Upload` for the file and mark it requested. */
    method UploadWatchedFile(remotePath: string)
      requires Shows()
      modifies this, outbox
      ensures Shows()
      ensures var u := UploadWatched(old(openedFiles), remotePath);
        && State() == old(State()).(openedFiles := u.0, status := "Uploading " + u.1.remotePath + " ...")
        && outbox.queue == old(outbox.queue) + [u.1]
    {
      var f := Watching.Entry(openedFiles, remotePath);
      openedFiles := openedFiles[remotePath := f];
      outbox.Put(Worker.Upload(f.localPath, f.remotePath));
      openedFiles := openedFiles[f.remotePath := Watching.Entry(openedFiles, f.remotePath).(uploadRequested := true)];
      status := "Uploading " + f.remotePath + " ...";
    }

    /** `OnFileWatcherTimer`: visit the opened files in key order and upload each one that is due. */
    method FileWatcherTick(diskTime: string -> int)
      requires Shows()
      modifies this, outbox
      ensures Shows()
      ensures var w := Watch(old(openedFiles), diskTime, SortedKeys(old(openedFiles).Keys));
        && State() == old(State()).(openedFiles := w.0, status := WatchStatus(old(status), w.1))
        && outbox.queue == old(outbox.queue) + w.1
    {
      ghost var total := Watch(openedFiles, diskTime, SortedKeys(openedFiles.Keys));
      ghost var issued: seq<Worker.Command> := [];
      assert [] + total.1 == total.1;
      var remaining := openedFiles.Keys;
      while remaining != {}
        invariant total == (Watch(openedFiles, diskTime, SortedKeys(remaining)).0,
                            issued + Watch(openedFiles, diskTime, SortedKeys(remaining)).1)
        invariant outbox.queue == old(outbox.queue) + issued
        invariant State() == old(State()).(openedFiles := openedFiles, status := WatchStatus(old(status), issued))
        decreases remaining
      {
        LeastExists(remaining);
        var k :| k in remaining && IsLeast(k, remaining);
        WatchFrom(openedFiles, diskTime, remaining, k);
        ghost var rest := Watch(Watch(openedFiles, diskTime, [k]).0, diskTime, SortedKeys(remaining - {k}));
        var now := WatchKey(k, diskTime);
        WatchStatusAppend(old(status), issued, now);
        ghost var queued := old(outbox.queue);
        Associative(issued, now, rest.1);
        Associative(queued, issued, now);
        issued := issued + now;
        remaining := remaining - {k};
      }
      assert SortedKeys(remaining) == [];
      assert issued + [] == issued;
    }

    /** One key of the watcher's tick: upload the file if it is due. */
    method WatchKey(k: string, diskTime: string -> int) returns (issued: seq<Worker.Command>)
      requires Shows()
      modifies this, outbox
      ensures Shows()
      ensures var w := Watch(old(openedFiles), diskTime, [k]);
        && issued == w.1
        && State() == old(State()).(openedFiles := w.0, status := WatchStatus(old(status), issued))
        && outbox.queue == old(outbox.queue) + issued
    {
      var f := Watching.Entry(openedFiles, k);
      if !f.uploadRequested && diskTime(f.localPath) > f.modified {
        var g := Watching.Entry(openedFiles, f.remotePath);
        issued := [Worker.Upload(g.localPath, g.remotePath)];
        UploadWatchedFile(f.remotePath);
        assert [] + issued == issued;
      } else {
        issued := [];
      }
    }

    // -------------------------------------------------------------------------
    // Navigation
    // -------------------------------------------------------------------------

    /** The frame's `DownloadFile`: with an editor configured, ask for the file to be fetched into the scratch directory. */
    method DownloadFile(remotePath: string, editorSet: bool, tempDir: string)
      modifies outbox
      ensures outbox.queue == old(outbox.queue) + (if editorSet then [DownloadFor(remotePath, tempDir)] else [])
    {
      if !editorSet {
        return;
      }
      var remote := NormalizePath(remotePath);
      var conn := username + "@" + host + "_" + IntToString(port);
      var local := NormalizePath(tempDir + "/sftpgui/" + conn + "/" + remote);
      outbox.Put(Worker.Download(local, remote));
    }

    /** Row `n` of the list widget activated: enter a directory, or download a file. */
    method OnItemActivated(n: int, editorSet: bool, tempDir: string)
      requires 0 <= n < |shown|
      requires Shows()
      modifies this, outbox
      ensures Shows()
      ensures var e := old(shown)[n];
        var path := ChildOf(old(currentDir), e.name);
        && (IsDir(e) ==>
              && State() == old(State()).(currentDir := path, currentDirList := [], shown := [], status := RETRIEVING,
                                          storedHighlighted := "", storedSelected := {})
              && outbox.queue == old(outbox.queue) + [Worker.GetDir(path)])
        && (!IsDir(e) ==>
              && State() == old(State())
              && outbox.queue == old(outbox.queue) + (if editorSet then [DownloadFor(path, tempDir)] else []))
    {
      var entry := shown[n];
      var path := NormalizePath(currentDir + "/" + entry.name);
      if IsDir(entry) {
        currentDir := path;
        currentDirList := [];
        shown := [];
        RefreshDir(path, false, 0, []);
      } else {
        DownloadFile(path, editorSet, tempDir);
      }
    }

    /** The parent-directory menu item. */
    method OnParentDir()
      requires Shows()
      modifies this, outbox
      ensures Shows()
      ensures State() == old(State()).(status := RETRIEVING, storedHighlighted := "", storedSelected := {})
      ensures outbox.queue == old(outbox.queue) + [Worker.GetDir(ParentOf(old(currentDir)))]
    {
      var parent := NormalizePath(currentDir + "/..");
      RefreshDir(parent, false, 0, []);
    }

    /** The refresh menu item: forget the latest event and list the directory again, keeping the selection. */
    method OnRefresh(highlighted: int, rows: seq<int>)
      requires Shows()
      modifies this, outbox
      ensures Shows()
      ensures var kept := Remembered(old(currentDirList), highlighted, rows);
        State() == old(State()).(latestStatus := "", status := RETRIEVING, storedHighlighted := kept.0, storedSelected := kept.1)
      ensures outbox.queue == old(outbox.queue) + [Worker.GetDir(old(currentDir))]
    {
      latestStatus := "";
      RefreshDir(currentDir, true, highlighted, rows);
    }

    /** Enter pressed in the path field: list the typed path. */
    method OnPathEntered(text: string)
      requires Shows()
      modifies this, outbox
      ensures Shows()
      ensures State() == old(State()).(status := RETRIEVING, storedHighlighted := "", storedSelected := {})
      ensures outbox.queue == old(outbox.queue) + [Worker.GetDir(text)]
    {
      RefreshDir(text, false, 0, []);
    }
  }

  /** The local copy of a download sits in the connection's scratch directory, at the remote path's segments. */
  lemma DownloadLandsInScratch(username: string, host: string, port: int, remotePath: string, tempDir: string)
    requires '/' !in username && '\\' !in username && '/' !in host && '\\' !in host
    ensures Parts(ScratchPath(tempDir, ConnName(username, host, port), remotePath))
         == Parts(tempDir) + ["sftpgui", ConnName(username, host, port)] + Parts(remotePath)
  {
    ConnNameIsName(username, host, port);
  }
}
