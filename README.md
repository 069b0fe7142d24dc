# sftpgui core, in Dafny

A model of the logic of sftpgui's `main.cpp`: a wxWidgets SFTP browser.
The window (`SftpguiFrame`) sends commands over a channel to a worker thread.
The worker runs them against libssh2 and posts a response back for each one.
The window lists the remote directory and keeps each file the user opened in
a local scratch copy. A watcher timer uploads a copy again once its disk time
moves past the time recorded for it.

Modules, in the order the program is built:

- `Wrappers`: `Option` and `Result`.
- `Text`: the string operations the program relies on:
  - `std::getline` splitting;
  - `std::string` ordering (`<`);
  - `find`;
  - `to_string`;
  - `prettifySentence`.
- `Paths`: `normalize_path`, with the functional specification `Normalize`
  and the imperative `NormalizePath` proved equal to it. Also the path
  building done by the window.
- `Channels`: `Channel<T>` as a class over a `seq`.
- `Failures`: the eight exception kinds. Also how `GetDir`, `DownloadFile`
  and `UploadFile` turn a libssh2 errno and SFTP status into one of them.
- `Listing`: `DirEntry` and the readdir loop of `SftpConnection::GetDir`,
  including the long-listing parse.
- `Transfer`: the read/write loops of `UploadFile`, both as written and
  corrected. The worker runs the loops as written.
- `Worker`: `sftpThreadFunc`, as a step function and as a loop over the
  channel.
- `Sorting`: the comparator of `SortAndPopulateDir`, and the sorted list.
- `Selection`: `RememberSelected` and `RecallSelected`.
- `Watching`: `opened_files_local_` and the watcher's tick.
- `Messages`: the status texts, the reconnect countdown and the
  column-header toggle.
- `App`: `SftpguiApp::ParseHost`.
- `Controller`: `SftpguiFrame` as a class:
  - its fields;
  - one method per response handler, timer and menu action;
  - `RefreshDir`, `SortAndPopulateDir`, `DownloadFile`, `UploadWatchedFile`.

Widget state and outside facts come in as parameters:

- the highlighted row and the selected rows;
- the button chosen in a dialog;
- the password typed;
- whether an editor is configured;
- the temporary directory;
- the current date text;
- `last_write_time`, a function from local path to an integer.

The rows the list widget shows are kept in the field `shown`. The frame's
invariant `Shows()` says they equal `current_dir_list_`, except that an empty
list may be shown as the single `..` placeholder after a failed listing. The
constructor establishes it and every handler keeps it.

## Model

| member | source | states |
|---|---|---|
| Text.SplitFields | main.cpp:117-120 | the loop yields exactly the segments `std::getline` yields: a trailing separator ends the input without an empty last field |
| Text.GetlineTokens | main.cpp:386-393 | skipping empty segments of `getline` leaves the space-separated tokens of the line |
| Text.RepeatedSeparator | main.cpp:390-393 | a doubled separator yields the same tokens as a single one |
| Text.FieldsConcat | main.cpp:117-120 | splitting `a + sep + b` is splitting `a`, then `b` |
| Text.FieldsOfSeparatorFree | main.cpp:117-120 | a string without the separator is one field |
| Text.NonEmptyConcat | main.cpp:391-393 | dropping empty tokens distributes over concatenation |
| Text.LessIrreflexive | main.cpp:1718-1721 | `std::string` `<` is irreflexive |
| Text.LessTransitive | main.cpp:1718-1721 | `std::string` `<` is transitive |
| Text.LessTotal | main.cpp:1718-1721 | two different strings are ordered one way or the other |
| Text.LessAsymmetric | main.cpp:1718-1721 | `std::string` `<` is asymmetric |
| Text.NatToString | main.cpp:1610 | `to_string` of a count is a non-empty string of decimal digits |
| Text.NatToStringDigits | main.cpp:1610 | `to_string` of a count has only decimal digits |
| Text.NatToStringRoundTrip | main.cpp:1610 | reading the digits of `to_string(n)` back gives `n` |
| Text.IndexOf | main.cpp:1826-1833 | `find` gives the first position of the character, or the length when it is absent (`npos`) |
| Text.Pretty | main.cpp:1091-1099 | first character upper-cased, the rest kept, a `.` appended unless one ends the text; `""` stays `""`; any other result ends in `.` |
| Text.PrettyIdempotent | main.cpp:1091-1099 | prettifying twice is prettifying once |
| Paths.ReplaceBackslashes | main.cpp:115 | every `\` becomes `/`, nothing else changes |
| Paths.ResolveSegments | main.cpp:117-132 | the segment loop: empty and `.` skipped, `..` pops when it can and is dropped when it cannot, names pushed |
| Paths.JoinParts | main.cpp:134-142 | the join loop: `/` before each part except a leading drive part |
| Paths.NormalizePath | main.cpp:113-149 | `normalize_path` computes `Normalize` (the parts rendered, or `/` when none are left) |
| Paths.NormalizeShape | main.cpp:134-148 | the result is non-empty and has no `\`; it is `/` exactly when no name is left; it starts with `/` unless its first part is a drive (two characters, `:` second) |
| Paths.NormalizeSegments | main.cpp:113-149 | the result has no empty, `.` or `..` segment: its `/`-fields are its parts, behind one empty field unless a drive leads |
| Paths.PartsOfNormalize | main.cpp:113-149 | normalizing keeps the parts of a path |
| Paths.NormalizeIdempotent | main.cpp:113-149 | normalizing twice is normalizing once |
| Paths.LeadingDotDotDropped | main.cpp:123-128 | a leading `..` with nothing to pop is dropped |
| Paths.NoNamesGivesRoot | main.cpp:144-146 | an input with only empty, `.` and `..` segments gives `/` |
| Paths.ResolveConcat | main.cpp:120-132 | resolving `a + b` is resolving `a`, then `b` from there |
| Paths.ResolveNames | main.cpp:129-131 | plain names are pushed unchanged |
| Paths.ResolveNoNames | main.cpp:121-128 | segments that are all empty, `.` or `..` resolve to nothing |
| Paths.ResolveKeepsNames | main.cpp:120-132 | resolving never produces an empty, `.` or `..` part |
| Paths.SlashedConcat | main.cpp:115 | replacing backslashes distributes over concatenation |
| Paths.SlashedChars | main.cpp:115 | no `\` is left, and a string without one is unchanged |
| Paths.PartsAreNames | main.cpp:120-131 | the parts of any path are plain names |
| Paths.PartsConcat | main.cpp:1292 | the parts of `a + "/" + b` are `b`'s segments resolved from `a`'s parts |
| Paths.PartsAppendSegment | main.cpp:1292 | appending one segment to a directory takes one resolution step |
| Paths.RenderNoBackslash | main.cpp:134-142 | joining plain names adds no `\` |
| Paths.RenderFirst | main.cpp:135-141 | the joined path starts with `/`, or with the drive's first character |
| Paths.FieldsOfRender | main.cpp:134-142 | splitting the joined path at `/` gives the parts back |
| Paths.ResolveNormalized | main.cpp:113-149 | resolving a normalized path from some parts appends its parts |
| Paths.ParentOf | main.cpp:1172-1174 | the parent-directory menu's path has the directory's parts minus the last one |
| Paths.ChildOf | main.cpp:1289-1290 | entering `name` from `dir` gives `dir`'s parts plus `name` |
| Paths.ScratchParts | main.cpp:1736-1740 | the scratch path's parts are the temp directory's, `sftpgui`, the connection name, then the remote path's |
| Paths.PartsAppendName | main.cpp:1738-1739 | appending `/` and a plain name adds that name to the parts |
| Paths.PartsUnderTwo | main.cpp:1736-1740 | two plain names and a normalized path below a directory add their parts to the directory's |
| Paths.ScratchPath | main.cpp:1736-1740 | the local copy of a download lies under `<temp>/sftpgui/<connection>/` at the remote path's parts |
| Channels.Channel.constructor | main.cpp:153-158 | a new channel is empty |
| Channels.Channel.Put | main.cpp:160-164 | `Put` appends at the back |
| Channels.Channel.Get | main.cpp:166-174 | `Get` removes and returns the front, on a non-empty queue |
| Channels.FifoOrder | main.cpp:160-174 | `n` items put and `n` taken come out in the order they were put |
| Failures.ClassifyOpendir | main.cpp:333-345 | protocol errno with `PERMISSION_DENIED` gives `DirListFailedPermission`; `NO_SUCH_PATH`, `NO_SUCH_FILE` or `NO_MEDIA` gives `FileNotFound`; anything else gives `ConnectionError` with the opendir message |
| Failures.ClassifyDownloadOpen | main.cpp:431-440 | `PERMISSION_DENIED` or `WRITE_PROTECT` gives the permission kind; any other protocol status gives `DownloadFailed`; a non-protocol errno gives `ConnectionError` |
| Failures.ClassifyDownloadRead | main.cpp:454-457 | a protocol errno gives `DownloadFailed`, any other errno gives `ConnectionError` |
| Failures.ClassifyUploadOpen | main.cpp:473-485 | as for download open, with `NO_SPACE_ON_FILESYSTEM` giving `UploadFailedSpace` |
| Failures.ClassifyUploadWrite | main.cpp:498-508 | only `UploadFailedSpace`, `UploadFailed` or `ConnectionError` can result, never a permission kind |
| Failures.UploadOpenMirrorsDownloadOpen | main.cpp:473-485 | apart from the space case, upload open classifies as download open does |
| Failures.UploadWriteMatchesOpen | main.cpp:498-508 | for non-permission protocol statuses, a failed write classifies as a failed open |
| Listing.ParseLongLine | main.cpp:385-412 | the `field_num` loop computes `LongLine`: tokens 0, 2 and 3 when token 0 is ten characters, nothing otherwise |
| Listing.EntryOf | main.cpp:367-383 | size and mtime taken only under their attribute flags (0 otherwise); mode and the directory bit only under the permissions flag |
| Listing.BuildEntry | main.cpp:367-412 | one readdir answer becomes `EntryOf` its record |
| Listing.Kept | main.cpp:367-414 | no kept entry is named `.`; at most one entry per answer |
| Listing.GetDir | main.cpp:329-423 | the readdir loop computes `ListDir`: the opendir failure, a readdir failure, or the kept entries |
| Listing.KeptConcat | main.cpp:348-415 | entries are kept in the order the server sent them |
| Listing.KeptOne | main.cpp:369-372 | one answer contributes its entry unless it is `EAGAIN` or named `.` |
| Listing.KeptMembers | main.cpp:369-372 | every answer not named `.`, including `..` and `""`, is kept, and every kept entry comes from an answer |
| Listing.RepeatedSpaces | main.cpp:390-393 | runs of spaces in the long line count as one |
| Listing.NoSpaceOneToken | main.cpp:395-401 | a one-token line sets the mode string when it has ten characters, and nothing otherwise |
| Listing.WordsFields | main.cpp:390 | a space and a word add one field |
| Listing.NonEmptyOfWords | main.cpp:391-393 | non-empty fields are kept as they are |
| Listing.FourWords | main.cpp:390 | four words joined by single spaces split back into the four |
| Listing.LsLine | main.cpp:395-409 | an `ls -l` style line gives mode string, owner and group from tokens 0, 2 and 3 |
| Transfer.SendChunkAsWritten | main.cpp:493-511 | the inner write loop as written computes `SendAsWritten`: each write sends `buf[..rc]` for the last `rc` |
| Transfer.AsWrittenRepeatsBytes | main.cpp:496-510 | a short write of 2 of 4 bytes makes the loop resend the first 2 bytes instead of the last 2 |
| Transfer.AsWrittenOvershoots | main.cpp:496-510 | two 2-byte writes of a 3-byte chunk drive `nread` to -1, after which the chunk is never reported sent, whatever the server answers |
| Transfer.NegativeNeverSent | main.cpp:495-510 | once `nread` is negative, `while (nread)` never ends with success: the loop can only fail or keep writing |
| Transfer.SendChunk | main.cpp:493-511 | the corrected inner loop computes `Send`, which writes from `p` for `nread` bytes |
| Transfer.SendDelivers | main.cpp:493-511 | what the corrected loop sends is a prefix of the chunk from the write position, and all of it when it ends `Sent`; it never consumes more answers than there are |
| Transfer.AsWrittenFineOnFullWrite | main.cpp:497 | when the first write takes the whole chunk, the loop as written agrees with the corrected one |
| Transfer.NextChunk | main.cpp:492 | `fread` gives the next 1 to `BUFLEN` bytes of the file |
| Transfer.UploadLoopAsWritten | main.cpp:490-516 | the outer read/write loop as written computes `UploadDataAsWritten`: each `fread` chunk goes through the inner loop as written |
| Transfer.AsWrittenUploadFaults | main.cpp:490-516 | as written, `abcd` sent with 2-byte writes reports success after the server got `abab`, and `abc` never reports success |
| Transfer.AsWrittenAgreesOnFullWrites | main.cpp:490-516 | when every write takes a whole buffer, the upload as written equals the corrected upload |
| Transfer.UploadLoop | main.cpp:490-516 | corrected program: the outer loop, with the inner loop writing from `p` for `nread` bytes, computes `UploadData` |
| Transfer.UploadDelivers | main.cpp:490-516 | corrected program: the server receives a prefix of the file, and the whole file when the upload ends `Sent` |
| Worker.Handle | main.cpp:696-781 | `Shutdown` stops and nothing else does; only unrecognised messages answer nothing. A command that needs a connection before any `Connect` is undefined. Only an upload can stall; uploads run the write loop as written |
| Worker.HandleAnswers | main.cpp:701-781 | a failure names the command's path. Listing, download and upload answers echo their paths. A failed construction keeps the previous connection. Refused agent auth asks for a password, accepted auth answers with the home directory. A refused password gives `ERROR` "Failed to authenticate." |
| Worker.FailureRoundTrip | main.cpp:754-777 | each exception kind has its own response id, and the id and payload give the failure back |
| Worker.FailureIdsApart | main.cpp:754-781 | no failure id is the id of a success response |
| Worker.RunFrom | main.cpp:690-783 | a drained run took every command and met no `Shutdown`; any other end took at least one command |
| Worker.RunWorker | main.cpp:690-783 | the loop takes commands off the channel in order and posts exactly the responses of `RunFrom` |
| Worker.ShutdownEnds | main.cpp:697-699 | `Shutdown` ends the loop, and nothing after it is taken |
| Worker.FailureKeepsRunning | main.cpp:754-781 | after a caught failure, its response is posted and the loop goes on with the next command |
| Worker.RunConcat | main.cpp:693-694 | commands are handled one at a time: running `a + b` is running `a`, then `b` from the resulting connection |
| Worker.RunConcatStep | main.cpp:693-694 | one step of the induction behind `RunConcat` |
| Worker.UploadAsWritten | main.cpp:747-753 | `abc` with two 2-byte writes stalls the worker with no answer; `abcd` with the same writes answers `UPLOAD` although the server got `abab` |
| Worker.UploadOnFullWrites | main.cpp:747-753 | when every write takes a whole buffer, an upload answers what the corrected loop would: `UPLOAD`, the classified write failure, or a stall |
| Worker.ConnectListShutdown | main.cpp:701-736 | connect, list, shutdown posts `CONNECTED` with the home directory, then the listing, and stops before the next command |
| Sorting.CompareNotIrreflexive | main.cpp:1680 | the comparator puts a `..` entry before itself |
| Sorting.TextBeforeStrictWeak | main.cpp:1718-1721 | `desc ? a < b : a > b` on strings is a strict weak order |
| Sorting.KeyBeforeStrictWeak | main.cpp:1679-1722 | the lexicographic key order is a strict weak order |
| Sorting.BeforeByKey | main.cpp:1679-1722 | leaving out the `(.., ..)` pair, the comparator is the order of a sort key: `..` first, directories before files, then the column, with hidden names ahead on the name column |
| Sorting.BeforeStrictWeak | main.cpp:1679-1722 | the comparator without the `(.., ..)` pair is irreflexive and asymmetric, and its incomparability is transitive |
| Sorting.Insert | main.cpp:1723 | inserting adds exactly the one entry |
| Sorting.InsertSorted | main.cpp:1723 | inserting into a sorted list keeps it sorted |
| Sorting.Sort | main.cpp:1723 | the sorted list is a permutation of the input |
| Sorting.SortSorts | main.cpp:1680-1723 | in the sorted list no entry goes before one ahead of it |
| Sorting.DotDotFirst | main.cpp:1680-1681 | a `..` entry is ahead of every other entry |
| Sorting.DirectoriesFirst | main.cpp:1682-1683 | directories are ahead of files |
| Sorting.DefaultIsDescending | main.cpp:1686-1690 | with `sort_desc_ == false` the size column is largest first |
| Sorting.HiddenFirst | main.cpp:1713-1717 | on the name column a hidden name is ahead of a visible non-empty one, whatever the direction |
| Sorting.SortSortedIsIdentity | main.cpp:1723 | the model's insertion sort leaves a sorted list unchanged |
| Sorting.SortIdempotent | main.cpp:1723 | with the model's insertion sort, sorting twice is sorting once |
| Sorting.SortedRemove | main.cpp:1723 | taking one entry out of a sorted list leaves it sorted |
| Sorting.EquivalentTransitive | main.cpp:1679-1722 | entries the comparator cannot tell apart form classes: the relation is transitive |
| Sorting.SortedPermutationsAgree | main.cpp:1723 | any two sorted permutations of the same entries (any result `std::sort` may give) have, at every position, entries the comparator cannot tell apart; so re-sorting a sorted list changes each position only to an equivalent entry |
| Selection.SelectedNames | main.cpp:1639-1642 | the names of exactly the selected rows that exist |
| Selection.Remembered | main.cpp:1636-1643 | the highlighted row's name (or `""` if the row does not exist) and the names of the selected rows |
| Selection.RememberedAsWritten | main.cpp:1636-1643 | `RememberSelected` as written is defined exactly when every row it indexes exists, and then agrees with `Remembered` |
| Selection.RememberEmptyListUndefined | main.cpp:1637 | on an empty list, the row 0 reported when nothing is highlighted is out of range |
| Selection.SelectedRows | main.cpp:1648-1651 | exactly the rows whose name was stored, ascending |
| Selection.HighlightRow | main.cpp:1652-1654 | the last row with the stored name, or 0 when there is none |
| Selection.RecallRows | main.cpp:1645-1658 | the loop over the new listing gives `HighlightRow` of the stored name and `SelectedRows` of the stored names |
| Selection.HighlightOfDistinct | main.cpp:1652-1654 | with distinct names, the row highlighted for a row's name is that row |
| Selection.AscendingUnique | main.cpp:1648-1651 | an ascending list of rows is determined by its rows |
| Selection.RememberRecall | main.cpp:1636-1658 | on a list with distinct names, recalling what was remembered restores the highlight and the selection |
| Selection.SelectedNamesStep | main.cpp:1640-1642 | one more selected row adds its name |
| Selection.RecallAfterReorder | main.cpp:1315-1317 | after reordering the list, the recalled rows carry exactly the remembered names, and the highlighted row carries the remembered highlighted name |
| Watching.Entry | main.cpp:1618 | `operator[]` reads the entry, or a blank one when the key is absent |
| Watching.Downloaded | main.cpp:1430-1439 | a `DOWNLOAD` on a known key updates only `modified` and keeps `local_path`; a new key gets a fresh entry that is not requested |
| Watching.DownloadedWellKeyed | main.cpp:1430-1439 | downloads keep every entry stored under its own remote path |
| Watching.Settled | main.cpp:1454-1456 | `UPLOAD`, and Ignore on an upload failure, touch only that key |
| Watching.SettledNotDue | main.cpp:1454-1456 | afterwards the file is not requested, keeps its local path, and is due only once its disk time passes the recorded one |
| Watching.Reconnected | main.cpp:1389-1392 | `CONNECTED` clears every upload flag and changes nothing else |
| Watching.UploadWatched | main.cpp:1617-1625 | `UploadWatchedFile` puts `Upload` with the entry's paths and marks that entry requested |
| Watching.Marked | main.cpp:1627-1634 | marking keeps the map's keys |
| Watching.WatchWellKeyed | main.cpp:1627-1634 | on a well-keyed map, a tick marks exactly the due files and puts one `Upload` per due file, in key order |
| Watching.IdleStep | main.cpp:1629-1632 | a key that is not due changes nothing |
| Watching.DueStep | main.cpp:1629-1632 | a due key is marked and leaves the other keys' uploads as they were |
| Watching.PendingUnchanged | main.cpp:1629-1632 | the uploads over some keys depend only on those keys' entries |
| Watching.NothingPending | main.cpp:1629-1632 | when no visited file is due, nothing is put |
| Watching.SecondTickIdle | main.cpp:1627-1634 | a second tick before any upload completes puts nothing |
| Watching.LeastExists | main.cpp:1628 | a non-empty key set has a least key |
| Watching.LeastUnique | main.cpp:1628 | the least key is unique |
| Watching.SortedKeys | main.cpp:1628 | iteration visits every key of the map exactly once |
| Watching.SortedKeysUnfold | main.cpp:1628 | iteration starts at the least key |
| Watching.SortedKeysAscending | main.cpp:1628 | iteration is in strictly ascending key order |
| Watching.AscendingCons | main.cpp:1628 | a key below an ascending list extends it |
| Watching.SortedKeysDistinct | main.cpp:1628 | iteration visits no key twice |
| Watching.SecondWatcherTickIdle | main.cpp:1627-1634 | two watcher ticks over the map with no upload completing between them: the second puts nothing |
| Messages.FailureText | main.cpp:1463-1583 | a failure dialog's text ends in the failure's remote path |
| Messages.FailureTextsApart | main.cpp:1463-1583 | two different failures on the same path show different texts |
| Messages.IdleStatus | main.cpp:1609-1615 | `"<count> items"`, followed by `". <latest>"` exactly when there is a latest event |
| Messages.IdleStatusCount | main.cpp:1609-1615 | the item count can be read back from the idle status |
| Messages.Tick | main.cpp:1357-1368 | a tick counts down while the countdown is positive; otherwise it reconnects |
| Messages.Ticks | main.cpp:1357-1368 | `n` ticks show at most `n` statuses |
| Messages.CountdownRuns | main.cpp:1357-1368 | from `c`, the ticks show `c` down to 1 without reconnecting, then one tick reconnects and nothing follows |
| Messages.TicksEnd | main.cpp:1357-1368 | from `c`, tick `c` is the reconnecting one and it is the last |
| Messages.TickAt | main.cpp:1357-1361 | tick `k` before the reconnect is the tick from countdown `c - k` |
| Messages.ReconnectAfterError | main.cpp:1585-1598 | after a connection error the ticks show 4, 3, 2, 1, then reconnect, once |
| Messages.Toggle | main.cpp:1307-1313 | a click on the current column flips the direction; any other column becomes the column with `sort_desc_ = false` |
| Messages.ToggleTwice | main.cpp:1307-1313 | two clicks on the current column restore the direction |
| Messages.NewColumnTwice | main.cpp:1307-1313 | two clicks on a new column sort it with `sort_desc_ = true` |
| App.HostOf | main.cpp:1832-1846 | the host has no `:` |
| App.ParseHostAsWritten | main.cpp:1817-1850 | `stoi` throws exactly on an all-digit port text that is empty or above `INT_MAX`; a parse gives the user, the host, and the port read from the port text (22 without one), in 1..65535 |
| App.ParseHost | main.cpp:1817-1850 | the corrected parse never throws. It accepts exactly no port or one in range. No port gives 22; a port text gives the number its digits spell. A non-digit port gives "non-digit port number" |
| App.AsWrittenAgrees | main.cpp:1817-1850 | where the parse as written does not throw, it agrees with the corrected one |
| App.EmptyPortThrows | main.cpp:1836-1840 | `host:` passes the digit test and makes `stoi` throw |
| App.DigitsValueAtLeast | main.cpp:1840 | an `n`-digit number without a leading zero is at least `10^(n-1)` |
| App.LongPortThrows | main.cpp:1840 | a port of eleven or more digits makes `stoi` throw; the corrected parse rejects it |
| App.Pow10Grows | main.cpp:1840 | `10^10` and more exceed `INT_MAX` |
| App.ParseFormat | main.cpp:1817-1850 | `user@host:port` with a port in range parses back to the same spec |
| App.IndexOfConcat | main.cpp:1826-1833 | `find` stops at the first occurrence |
| App.HostOnly | main.cpp:1817-1820 | a bare host gets the local user and port 22 |
| Controller.ConnNameIsName | main.cpp:1738 | the connection name is a single path segment when user and host have no slash |
| Controller.ActivatedAsWritten | main.cpp:1289 | reading `current_dir_list_[n]` is defined exactly for the list's positions |
| Controller.PlaceholderActivationUndefined | main.cpp:1551-1557 | activating the one placeholder row reads past the end of the empty list |
| Controller.PlaceholderOpensParent | main.cpp:1172-1174 | the placeholder is a directory, and entering it opens the parent directory |
| Controller.DownloadLandsInScratch | main.cpp:1736-1740 | the download's local path is the connection's scratch directory plus the remote path's parts |
| Controller.WatchConcat | main.cpp:1628-1633 | a tick over `[k] + rest` is the tick over `k`, then over `rest` |
| Controller.WatchFrom | main.cpp:1628 | the tick over a key set starts with its least key |
| Controller.WatchStatusAppend | main.cpp:1624 | the status after two runs of uploads is the last upload's status |
| Controller.Frame.constructor | main.cpp:1371-1377 | the frame starts on column 0 with `sort_desc_ = false`, shows "Connecting...", and has put one `Connect` with its credentials; `Shows()` holds |
| Controller.Frame.RememberSelected | main.cpp:1636-1643 | the stored highlight and selection become `Remembered` of the list; nothing else changes |
| Controller.Frame.RecallSelected | main.cpp:1645-1658 | the rows recalled are `HighlightRow` and `SelectedRows` of the stored names |
| Controller.Frame.SortAndPopulateDir | main.cpp:1678-1726 | the list becomes `Sort` of itself, and the widget shows it |
| Controller.Frame.RefreshDir | main.cpp:1660-1676 | shows "Retrieving directory list...", remembers the selection or clears it, then puts `GetDir(path)` |
| Controller.Frame.ToggleSort | main.cpp:1307-1313 | the sort column and direction become `Toggle`'s; nothing else changes |
| Controller.Frame.ColumnClick | main.cpp:1306-1318 | toggles the column, re-sorts, and restores the remembered selection on the re-sorted list |
| Controller.Frame.OnConnected | main.cpp:1383-1396 | adopts the home directory only if none was open, clears every upload flag, clears the selection and puts `GetDir` of the directory |
| Controller.Frame.ClearUploadFlags | main.cpp:1389-1392 | the loop over the map computes `Reconnected` |
| Controller.Frame.OnNeedPassword | main.cpp:1398-1407 | puts `Password` with the text typed |
| Controller.Frame.OnDirListed | main.cpp:1409-1424 | takes the directory and sorted list and restores the selection; records a refresh event only if none is recorded; shows the idle status with the count |
| Controller.Frame.TakeListing | main.cpp:1411-1414 | the directory becomes the listed one, and the list becomes the sorted listing, shown; nothing else changes |
| Controller.Frame.SetIdleStatusText | main.cpp:1609-1615 | the status becomes `IdleStatus` of the count and latest event |
| Controller.Frame.OnDownloaded | main.cpp:1426-1447 | records the download in the map and as the latest event, then refreshes keeping the selection |
| Controller.Frame.OnUploaded | main.cpp:1449-1461 | settles the file, records the upload as the latest event, refreshes keeping the selection |
| Controller.Frame.OnDownloadFailed | main.cpp:1463-1491 | Retry downloads again (when an editor is set); Ignore shows the failure text and puts nothing |
| Controller.Frame.OnUploadFailed | main.cpp:1493-1545 | Retry uploads the file again; Ignore settles it at its disk time and shows the failure text |
| Controller.Frame.OnListingFailed | main.cpp:1547-1583 | on an empty list the widget shows only the `..` placeholder while the list stays empty; the failure text is shown |
| Controller.Frame.OnConnectionError | main.cpp:1585-1598 | stores the prettified error, sets the countdown to 4, starts the timer and shows "Reconnecting in 5 seconds..." |
| Controller.Frame.OnError | main.cpp:1600-1606 | the window closes |
| Controller.Frame.ReconnectTick | main.cpp:1356-1368 | one `Tick`: while the countdown is positive, show it and count down; then stop the timer and put exactly one `Connect` with the window's own credentials |
| Controller.Frame.UploadWatchedFile | main.cpp:1617-1625 | puts `UploadWatched`'s command, stores its map and shows "Uploading ..." |
| Controller.Frame.FileWatcherTick | main.cpp:1627-1634 | visits the keys in ascending order; the map and the commands put are `Watch` over `SortedKeys` of the keys at the start |
| Controller.Frame.WatchKey | main.cpp:1628-1632 | one key of the tick computes `Watch` over that key |
| Controller.Frame.DownloadFile | main.cpp:1728-1749 | with an editor set, puts `Download` from the normalized remote path to its scratch path; without one, puts nothing |
| Controller.Frame.OnItemActivated | main.cpp:1287-1304 | a directory row clears the list and lists the entered path with the selection cleared; a file row downloads it |
| Controller.Frame.OnParentDir | main.cpp:1172-1174 | lists `ParentOf` the current directory with the selection cleared |
| Controller.Frame.OnRefresh | main.cpp:1156-1159 | forgets the latest event and lists the current directory again, keeping the selection |
| Controller.Frame.OnPathEntered | main.cpp:1264-1266 | lists the typed path with the selection cleared |

## Left out

- Widgets, menus, accelerators, layout, the busy cursor, geometry and the preferences pages. These are presentation. The selection, the dialog button and the typed password are inputs instead.
- `RequestUserAttention`, and keeping the path field's text in step with the directory. Both are presentation.
- The password prompt's wording. It is presentation.
- The `ERROR` handler: it builds a dialog but never shows it, then closes the window. The model only records `closed`.
- libssh2 and sockets are not modelled: session setup, agent and password authentication, `GetLastErrorMsg` and teardown. Their outcomes are the `Io` inputs of the worker.
- The generic `catch (exception e)` in the worker, for exceptions other than the eight kinds. None of the modelled operations raises one.
- The download's byte-copy loop and `fwrite`. Only its outcome is modelled, along with how a read failure is classified. The upload's `fread` errors are not modelled either. This is file I/O.
- Threads, the mutex and the condition variable. The channel is a sequential queue. `Get` blocking on an empty queue is its precondition.
- `wxDateTime::Now`, `ModifiedFormatted` and `last_write_time` throwing. The date is a string parameter, and disk times come from a caller-supplied function.
- Starting the editor with `wxExecute`, the "No text editor configured" notice, reading `/editor` (now a Boolean), `create_directories` and removing the scratch files. These are process and filesystem effects.
- `wxGetUserId` and the Windows lower-casing of the user name. The local user is a parameter.
- `showException` and the `try` around item activation.
- `reconnect_timer_countdown_` is left uninitialised by the source. The model starts it at 0. Ticks happen only while the timer runs, after a connection error has set it.
- Sorting.Sort: `std::sort` is not stable. The model returns one particular sorted permutation, which `ColumnClick` and `OnDirListed` use. `SortSorts` and the lemmas about a `Sorted` list hold for every sorted permutation, and `SortedPermutationsAgree` says how any two of them agree. `SortSortedIsIdentity` and `SortIdempotent` hold only for the model's insertion sort; for `std::sort` the guarantee is the weaker one of `SortedPermutationsAgree`.
- `size_` and `modified_` are `uint64_t` in the source. They are `nat` here, with no wrap-around, because they are only copied from the server's attributes.
- Controller.Frame.FileWatcherTick: the loop runs over the keys present when the tick starts. `UploadWatchedFile` can insert the blank key `""`, which sorts before every other key, so the source's iteration never reaches it either.

## Findings

| source | as written | input that shows it | evidently intended | confidence | as-written member | corrected member |
|---|---|---|---|---|---|---|
| main.cpp:497 | `libssh2_sftp_write(handle, buf, rc)` inside `while (nread)`: every attempt rewrites the chunk's first `rc` bytes; `p` is advanced but never used | a 4-byte chunk whose first write takes 2 bytes: the bytes sent are 1, 2, 1, 2; with 3 bytes and two 2-byte writes `nread` becomes -1 and the loop does not stop | write from `p` for `nread` bytes | not executed | Transfer.AsWrittenUploadFaults | Transfer.UploadDelivers |
| main.cpp:1836-1840 | the digit test accepts an empty port and any number of digits; `stoi` then throws `invalid_argument` or `out_of_range` before the range check | `host:` and `host:12345678901` | report "invalid port number" and return false | not executed | App.LongPortThrows | App.ParseHost |
| main.cpp:1637 | `current_dir_list_[GetHighlighted()]` with an empty list | F5 while the `..` placeholder is shown after a failed listing: the list is empty and the highlighted row is 0 | store no highlighted name | not executed | Selection.RememberEmptyListUndefined | Selection.RememberRecall |
| main.cpp:1289 | item activation reads `current_dir_list_[n]`, but the widget may be showing the `..` placeholder instead | activating the placeholder's row 0 with the list empty | enter the parent directory, as the placeholder promises | not executed | Controller.PlaceholderActivationUndefined | Controller.PlaceholderOpensParent |
| main.cpp:1680 | the comparator returns true when `a` is `..` whatever `b` is, including `a` itself; `std::sort` requires an irreflexive comparator | a listing whose entries include `..`: the comparator says `..` goes before `..` | check `b.name_ == ".."` first as well, so two `..` entries compare equal | not executed | Sorting.CompareNotIrreflexive | Sorting.BeforeStrictWeak |
