/**
 * The pure parts of the window's handlers in main.cpp: the status-bar texts,
 * one tick of the reconnect timer, and the column-header toggle.
 */
module Messages {
  import opened Text
  import opened Failures

  // ---------------------------------------------------------------------------
  // Status texts
  // ---------------------------------------------------------------------------

  const CONNECTING := "Connecting..."
  const CONNECTED_STATUS := "Connected. Getting directory list..."
  const RETRIEVING := "Retrieving directory list..."

  /** The text a failure dialog shows and, once dismissed, the status bar keeps. */
  function FailurePrefix(f: Failure): string
  {
    match f
    case DownloadFailed(_) => "Failed to download "
    case DownloadFailedPermission(_) => "Permission denied when downloading "
    case UploadFailed(_) => "Failed to upload "
    case UploadFailedPermission(_) => "Permission denied when uploading "
    case UploadFailedSpace(_) => "Insufficient disk space failure while uploading "
    case DirListFailedPermission(_) => "Permission denied while listing directory "
    case FileNotFound(_) => "File or directory not found: "
    case ConnectionError(_) => ""
  }

  /** The message of a failure about a remote file: a kind-specific prefix, then the remote path. */
  function FailureText(f: Failure): (s: string)
    requires IsFileFailure(f)
    ensures |s| > |f.remotePath| && s[|s| - |f.remotePath|..] == f.remotePath
  {
    FailurePrefix(f) + f.remotePath
  }

  /** The message tells the kinds apart: two failures about the same path give different texts. */
  lemma FailureTextsApart(f: Failure, g: Failure)
    requires IsFileFailure(f) && IsFileFailure(g) && f.remotePath == g.remotePath
    requires f != g
    ensures FailureText(f) != FailureText(g)
  {
    PrefixLength(f);
    PrefixLength(g);
  }

  /** The prefixes have seven different lengths, one per kind of failure. */
  lemma PrefixLength(f: Failure)
    requires IsFileFailure(f)
    ensures |FailurePrefix(f)| == match f
      case DownloadFailed(_) => 19
      case DownloadFailedPermission(_) => 35
      case UploadFailed(_) => 17
      case UploadFailedPermission(_) => 33
      case UploadFailedSpace(_) => 48
      case DirListFailedPermission(_) => 42
      case FileNotFound(_) => 29
      case ConnectionError(_) => 0
  {
  }

  /** `SetIdleStatusText`: the item count, then the latest notable event if there is one. */
  function IdleStatus(count: nat, latest: string): (s: string)
    ensures var head := NatToString(count) + " items";
      && |s| >= |head| && s[..|head|] == head
      && (latest == "" <==> s == head)
      && (latest != "" ==> s[|head|..] == ". " + latest)
  {
    var head := NatToString(count) + " items";
    if latest == "" then head else head + ". " + latest
  }

  /** The count can be read back from the idle status. */
  lemma IdleStatusCount(count: nat, latest: string)
    ensures var s := IdleStatus(count, latest);
      var n := |NatToString(count)|;
      AllDigits(s[..n]) && DigitsValue(s[..n]) == count && s[n..n + 6] == " items"
  {
    var s := IdleStatus(count, latest);
    var digits := NatToString(count);
    assert s[..|digits|] == (s[..|digits + " items"|])[..|digits|];
    NatToStringRoundTrip(count);
  }

  // ---------------------------------------------------------------------------
  // The reconnect timer
  // ---------------------------------------------------------------------------

  /** The countdown set by a connection error: the timer shows it first. */
  const RECONNECT_COUNTDOWN := 5 - 1

  /** A connection error's status while the countdown starts. */
  function ConnectionErrorStatus(error: string): string
  {
    Pretty(error) + " Reconnecting in 5 seconds..."
  }

  /** What one tick does: the countdown after it, the status it shows, and whether it stops the timer and reconnects. */
  datatype TickResult = TickResult(countdown: int, status: string, reconnect: bool)

  /** The status shown `c` seconds before the reconnect. */
  function CountingStatus(error: string, c: int): string
  {
    error + " Reconnecting in " + IntToString(c) + " seconds..."
  }

  /** One tick of `reconnect_timer_`. */
  function Tick(countdown: int, error: string): (t: TickResult)
    ensures t.reconnect <==> countdown <= 0
    ensures !t.reconnect ==> t.countdown == countdown - 1
    ensures t.reconnect ==> t.countdown == countdown
  {
    if countdown > 0 then
      TickResult(countdown - 1, CountingStatus(error, countdown), false)
    else
      TickResult(countdown, error + " Reconnecting...", true)
  }

  /** Up to `n` ticks; the tick that reconnects stops the timer, so nothing follows it. */
  function Ticks(countdown: int, error: string, n: nat): (r: seq<TickResult>)
    ensures |r| <= n
    decreases n
  {
    if n == 0 then []
    else [Tick(countdown, error)] + (if countdown <= 0 then [] else Ticks(countdown - 1, error, n - 1))
  }

  /**
   * From a countdown of `c`, the timer shows `c`, `c - 1`, ..., `1` on its
   * first `c` ticks without reconnecting, and the tick after that reconnects,
   * once; there are no more ticks after it.
   */
  lemma CountdownRuns(c: nat, error: string, n: nat)
    requires n > c
    ensures var r := Ticks(c, error, n);
      && |r| == c + 1
      && (forall k :: 0 <= k < c ==> r[k] == TickResult(c - k - 1, CountingStatus(error, c - k), false))
      && r[c] == TickResult(0, error + " Reconnecting...", true)
  {
    TicksEnd(c, error, n);
    forall k | 0 <= k < c
      ensures Ticks(c, error, n)[k] == TickResult(c - k - 1, CountingStatus(error, c - k), false)
    {
      TickAt(c, error, n, k);
    }
  }

  /** From a countdown of `c`, tick `c` is the one that reconnects, and it is the last. */
  lemma {:induction false} TicksEnd(c: nat, error: string, n: nat)
    requires n > c
    ensures |Ticks(c, error, n)| == c + 1
    ensures Ticks(c, error, n)[c] == Tick(0, error)
    decreases c
  {
    if c > 0 {
      TicksStep(c, error, n);
      TicksEnd(c - 1, error, n - 1);
      var rest := Ticks(c - 1, error, n - 1);
      assert ([Tick(c, error)] + rest)[c] == rest[c - 1];
    } else {
      assert Ticks(0, error, n) == [Tick(0, error)] + [];
    }
  }

  /** Tick `k` before the reconnect is the tick from countdown `c - k`. */
  lemma {:induction false} TickAt(c: nat, error: string, n: nat, k: nat)
    requires n > c && k < c
    ensures |Ticks(c, error, n)| > k
    ensures Ticks(c, error, n)[k] == Tick(c - k, error)
    decreases k
  {
    TicksStep(c, error, n);
    var r := Ticks(c, error, n);
    if k > 0 {
      TickAt(c - 1, error, n - 1, k - 1);
      var j := c - k;
      assert c - 1 - (k - 1) == j;
      assert r[k] == Ticks(c - 1, error, n - 1)[k - 1];
    } else {
      assert r[0] == Tick(c, error);
    }
  }

  /** A tick with a positive countdown does not reconnect and leaves the rest to the ticks after it. */
  lemma TicksStep(c: nat, error: string, n: nat)
    requires c > 0 && n > 0
    ensures Ticks(c, error, n) == [Tick(c, error)] + Ticks(c - 1, error, n - 1)
  {
  }

  /** After a connection error: four ticks show 4, 3, 2, 1 and the fifth reconnects. */
  lemma ReconnectAfterError(error: string)
    ensures var r := Ticks(RECONNECT_COUNTDOWN, Pretty(error), 5);
      && |r| == 5
      && r[0].status == CountingStatus(Pretty(error), 4)
      && r[1].status == CountingStatus(Pretty(error), 3)
      && r[2].status == CountingStatus(Pretty(error), 2)
      && r[3].status == CountingStatus(Pretty(error), 1)
      && r[4].status == Pretty(error) + " Reconnecting..."
      && (forall k :: 0 <= k < 4 ==> !r[k].reconnect) && r[4].reconnect
  {
    CountdownRuns(4, Pretty(error), 5);
  }

  // ---------------------------------------------------------------------------
  // Column headers
  // ---------------------------------------------------------------------------

  /** A click on header `col`: the same column flips the direction, another one selects it with `sort_desc_ = false`. */
  function Toggle(column: int, desc: bool, col: int): (r: (int, bool))
    ensures r.0 == col
    ensures column == col ==> r.1 == !desc
    ensures column != col ==> r.1 == false
  {
    if column == col then (column, !desc) else (col, false)
  }

  /** Two clicks on the same header come back to the direction before them. */
  lemma ToggleTwice(column: int, desc: bool, col: int)
    requires column == col
    ensures var once := Toggle(column, desc, col); Toggle(once.0, once.1, col) == (column, desc)
  {
  }

  /** A click on a new header and a second one on it sort by that column with `<`. */
  lemma NewColumnTwice(column: int, desc: bool, col: int)
    requires column != col
    ensures var once := Toggle(column, desc, col); Toggle(once.0, once.1, col) == (col, true)
  {
  }
}
