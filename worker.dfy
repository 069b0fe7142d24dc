/**
 * The SFTP worker thread (`sftpThreadFunc`): it takes commands off the
 * channel one at a time, runs each against the connection and answers the
 * window with a response id and payload.
 *
 * The libssh2 calls are replaced by their outcomes for each command, an
 * `Io`: whether the connection could be built, how authentication went (and
 * the home directory it found), what the directory listing returned, and how
 * the file transfer calls ended.
 */
module Worker {
  import opened Wrappers
  import opened Failures
  import Listing
  import opened Transfer
  import opened Channels

  // Response ids (`ID_SFTP_THREAD_RESPONSE_*`).
  const ID_CONNECTED := 60
  const ID_GET_DIR := 70
  const ID_NEED_PASSWD := 80
  const ID_ERROR := 90
  const ID_UPLOAD := 100
  const ID_ERROR_CONNECTION := 110
  const ID_DOWNLOAD := 120
  const ID_DOWNLOAD_FAILED := 130
  const ID_DOWNLOAD_FAILED_PERMISSION := 140
  const ID_UPLOAD_FAILED := 150
  const ID_UPLOAD_FAILED_PERMISSION := 160
  const ID_UPLOAD_FAILED_SPACE := 170
  const ID_DIR_LIST_FAILED := 180
  const ID_FILE_NOT_FOUND := 190

  /** The `SftpThreadCmd*` messages; `Unrecognised` is a message of any other type. */
  datatype Command =
    | Connect(username: string, host: string, port: int)
    | Password(password: string)
    | Shutdown
    | GetDir(dir: string)
    | Download(localPath: string, remotePath: string)
    | Upload(localPath: string, remotePath: string)
    | Unrecognised

  /** The responses posted to the window; `Failed` is one of the eight caught exceptions. */
  datatype Response =
    | Connected(homeDir: string)
    | DirListed(dir: string, entries: seq<Listing.DirEntry>)
    | NeedPassword
    | Error(error: string)
    | Uploaded(remotePath: string)
    | Downloaded(localPath: string, remotePath: string)
    | Failed(failure: Failure)

  /** The id of the response posted for each caught exception. */
  function FailureId(f: Failure): int
  {
    match f
    case DownloadFailed(_) => ID_DOWNLOAD_FAILED
    case DownloadFailedPermission(_) => ID_DOWNLOAD_FAILED_PERMISSION
    case UploadFailed(_) => ID_UPLOAD_FAILED
    case UploadFailedPermission(_) => ID_UPLOAD_FAILED_PERMISSION
    case UploadFailedSpace(_) => ID_UPLOAD_FAILED_SPACE
    case DirListFailedPermission(_) => ID_DIR_LIST_FAILED
    case FileNotFound(_) => ID_FILE_NOT_FOUND
    case ConnectionError(_) => ID_ERROR_CONNECTION
  }

  /** The payload string: `SftpThreadResponseFileError{remote_path}` or `SftpThreadResponseError{msg}`. */
  function FailurePayload(f: Failure): string
  {
    if f.ConnectionError? then f.msg else f.remotePath
  }

  /** The id a response is posted under. */
  function Id(r: Response): int
  {
    match r
    case Connected(_) => ID_CONNECTED
    case DirListed(_, _) => ID_GET_DIR
    case NeedPassword => ID_NEED_PASSWD
    case Error(_) => ID_ERROR
    case Uploaded(_) => ID_UPLOAD
    case Downloaded(_, _) => ID_DOWNLOAD
    case Failed(f) => FailureId(f)
  }

  /** How the window reads a failure back from an event id and its payload. */
  function FailureFrom(id: int, payload: string): Option<Failure>
  {
    if id == ID_DOWNLOAD_FAILED then Some(DownloadFailed(payload))
    else if id == ID_DOWNLOAD_FAILED_PERMISSION then Some(DownloadFailedPermission(payload))
    else if id == ID_UPLOAD_FAILED then Some(UploadFailed(payload))
    else if id == ID_UPLOAD_FAILED_PERMISSION then Some(UploadFailedPermission(payload))
    else if id == ID_UPLOAD_FAILED_SPACE then Some(UploadFailedSpace(payload))
    else if id == ID_DIR_LIST_FAILED then Some(DirListFailedPermission(payload))
    else if id == ID_FILE_NOT_FOUND then Some(FileNotFound(payload))
    else if id == ID_ERROR_CONNECTION then Some(ConnectionError(payload))
    else None
  }

  /** Every exception kind has its own id: the window recovers the exact failure from id and payload. */
  lemma FailureRoundTrip(f: Failure)
    ensures FailureFrom(FailureId(f), FailurePayload(f)) == Some(f)
  {
  }

  /** Ids of failures are never the ids of the other responses. */
  lemma FailureIdsApart(f: Failure, r: Response)
    requires !r.Failed?
    ensures FailureId(f) != Id(r)
  {
  }

  /** The open connection: `username_`, `host_`, `port_`, `home_dir_`. */
  datatype Session = Session(username: string, host: string, port: int, homeDir: string)

  /** How `AgentAuth` / `PasswordAuth` ended: false, true (with the home directory), or a `ConnectionError`. */
  datatype Login = Refused | LoggedIn(homeDir: string) | InitFailed(message: string)

  /** The outcomes of the library calls for one command. */
  datatype Io = Io(
    construction: Option<string>,
    login: Login,
    opendir: Option<Fault>,
    listing: Listing.DirStream,
    openFile: Option<Fault>,
    readEnd: Option<Fault>,
    localData: seq<Byte>,
    writes: seq<WriteReply>)

  /**
   * One turn of the loop. `Undefined` is a call through the empty
   * `unique_ptr` (a command that needs a connection before any `Connect`);
   * `Stalled` is an upload whose write loop is still running when the
   * server's answers run out; with the write loop as written this includes
   * a loop whose `nread` went below zero and can no longer end.
   */
  datatype Turn =
    | Stop
    | Next(session: Option<Session>, reply: Option<Response>)
    | Undefined
    | Stalled

  predicate NeedsSession(cmd: Command)
  {
    cmd.Password? || cmd.GetDir? || cmd.Download? || cmd.Upload?
  }

  /** The remote path a command concerns. */
  function TargetOf(cmd: Command): string
  {
    match cmd
    case GetDir(dir) => dir
    case Download(_, remote) => remote
    case Upload(_, remote) => remote
    case _ => ""
  }

  /** Handling one command from the channel. */
  function Handle(s: Option<Session>, cmd: Command, io: Io): (t: Turn)
    ensures t.Stop? <==> cmd.Shutdown?
    ensures t.Undefined? <==> s.None? && NeedsSession(cmd)
    ensures t.Stalled? ==> cmd.Upload?
    ensures t.Next? && t.reply.None? <==> cmd.Unrecognised?
  {
    match cmd
    case Shutdown => Stop
    case Unrecognised => Next(s, None)
    case Connect(username, host, port) =>
      if io.construction.Some? then
        Next(s, Some(Failed(ConnectionError(io.construction.value))))
      else
        var c := Session(username, host, port, "");
        (match io.login
         case Refused => Next(Some(c), Some(NeedPassword))
         case LoggedIn(home) => Next(Some(c.(homeDir := home)), Some(Connected(home)))
         case InitFailed(m) => Next(Some(c), Some(Failed(ConnectionError(m)))))
    case Password(_) =>
      if s.None? then Undefined
      else
        (match io.login
         case Refused => Next(s, Some(Error("Failed to authenticate.")))
         case LoggedIn(home) => Next(Some(s.value.(homeDir := home)), Some(Connected(home)))
         case InitFailed(m) => Next(s, Some(Failed(ConnectionError(m)))))
    case GetDir(dir) =>
      if s.None? then Undefined
      else
        (match Listing.ListDir(dir, io.opendir, io.listing)
         case Ok(entries) => Next(s, Some(DirListed(dir, entries)))
         case Err(f) => Next(s, Some(Failed(f))))
    case Download(local, remote) =>
      if s.None? then Undefined
      else if io.openFile.Some? then Next(s, Some(Failed(ClassifyDownloadOpen(remote, io.openFile.value))))
      else if io.readEnd.Some? then Next(s, Some(Failed(ClassifyDownloadRead(remote, io.readEnd.value))))
      else Next(s, Some(Downloaded(local, remote)))
    case Upload(_, remote) =>
      if s.None? then Undefined
      else if io.openFile.Some? then Next(s, Some(Failed(ClassifyUploadOpen(remote, io.openFile.value))))
      else
        var r := UploadDataAsWritten(io.localData, io.writes);
        match r.outcome
        case Sent => Next(s, Some(Uploaded(remote)))
        case WriteFailed(f) => Next(s, Some(Failed(ClassifyUploadWrite(remote, f))))
        case Unfinished => Stalled
  }

  /** What each command answers (`sftpThreadFunc`'s handlers). */
  lemma HandleAnswers(s: Option<Session>, cmd: Command, io: Io)
    ensures var t := Handle(s, cmd, io);
      && (cmd.Unrecognised? ==> t == Next(s, None))
      // A failure always names the path the command was about.
      && (t.Next? && t.reply.Some? && t.reply.value.Failed? && IsFileFailure(t.reply.value.failure)
        ==> t.reply.value.failure.remotePath == TargetOf(cmd))
      // Listing, download and upload answers echo the command's paths.
      && (cmd.GetDir? && t.Next? && t.reply.value.DirListed? ==> t.reply.value.dir == cmd.dir)
      && (cmd.Download? && t.Next? && !t.reply.value.Failed? ==> t.reply == Some(Downloaded(cmd.localPath, cmd.remotePath)))
      && (cmd.Upload? && t.Next? && !t.reply.value.Failed? ==> t.reply == Some(Uploaded(cmd.remotePath)))
      // A connection that fails to build keeps the previous one.
      && (cmd.Connect? && io.construction.Some? ==> t == Next(s, Some(Failed(ConnectionError(io.construction.value)))))
      // Agent authentication refused asks for a password; accepted answers with the home directory.
      && (cmd.Connect? && io.construction.None? && io.login.Refused? ==> t.reply == Some(NeedPassword))
      && (cmd.Connect? && io.construction.None? && io.login.LoggedIn? ==>
        t == Next(Some(Session(cmd.username, cmd.host, cmd.port, io.login.homeDir)), Some(Connected(io.login.homeDir))))
      && (cmd.Password? && s.Some? && io.login.Refused? ==> t == Next(s, Some(Error("Failed to authenticate."))))
      && (t.Next? && t.reply.Some? && t.reply.value.Connected? ==>
        t.session.Some? && t.session.value.homeDir == t.reply.value.homeDir)
  {
  }

  // ---------------------------------------------------------------------------
  // The loop
  // ---------------------------------------------------------------------------

  datatype End = Stopped | Drained | WentUndefined | WriteStalled

  /** The responses posted, how the loop ended, and how many commands it took off the channel. */
  datatype Run = Run(responses: seq<Response>, end: End, consumed: nat)

  function Before(responses: seq<Response>, taken: nat, r: Run): Run
  {
    r.(responses := responses + r.responses, consumed := taken + r.consumed)
  }

  function Posted(reply: Option<Response>): seq<Response>
  {
    if reply.Some? then [reply.value] else []
  }

  /**
   * The loop over the commands in the channel, starting with connection `s`;
   * the `n`-th command taken meets the outcomes `io(n)`. `Drained` means the
   * worker is waiting for the next command.
   */
  function RunFrom(s: Option<Session>, cmds: seq<Command>, io: nat -> Io, n: nat): (r: Run)
    ensures r.consumed <= |cmds|
    ensures r.end == Drained ==> r.consumed == |cmds| && Shutdown !in cmds
    ensures r.end != Drained ==> r.consumed > 0
    decreases |cmds|
  {
    if cmds == [] then Run([], Drained, 0)
    else
      match Handle(s, cmds[0], io(n))
      case Stop => Run([], Stopped, 1)
      case Undefined => Run([], WentUndefined, 1)
      case Stalled => Run([], WriteStalled, 1)
      case Next(s', reply) =>
        var rest := RunFrom(s', cmds[1..], io, n + 1);
        assert cmds == [cmds[0]] + cmds[1..];
        Before(Posted(reply), 1, rest)
  }

  /** `sftpThreadFunc`, for the commands in the channel when it starts, with no connection yet. */
  method RunWorker(channel: Channel<Command>, io: nat -> Io) returns (responses: seq<Response>, end: End)
    modifies channel
    ensures var r := RunFrom(None, old(channel.queue), io, 0);
      && responses == r.responses && end == r.end
      && channel.queue == old(channel.queue)[r.consumed..]
  {
    ghost var cmds := channel.queue;
    var session: Option<Session> := None;
    responses := [];
    var taken := 0;
    while channel.queue != []
      invariant 0 <= taken <= |cmds|
      invariant channel.queue == cmds[taken..]
      invariant RunFrom(None, cmds, io, 0) == Before(responses, taken, RunFrom(session, cmds[taken..], io, taken))
      decreases |channel.queue|
    {
      var cmd := channel.Get();
      assert cmds[taken..][0] == cmd && cmds[taken..][1..] == cmds[taken + 1..];
      var turn := Handle(session, cmd, io(taken));
      taken := taken + 1;
      match turn
      case Stop =>
        return responses, Stopped;
      case Undefined =>
        return responses, WentUndefined;
      case Stalled =>
        return responses, WriteStalled;
      case Next(s', reply) =>
        RunFromNext(session, cmds[taken - 1..], io, taken - 1);
        ghost var rest := RunFrom(s', cmds[taken..], io, taken);
        assert responses + (Posted(reply) + rest.responses) == (responses + Posted(reply)) + rest.responses;
        session := s';
        responses := responses + Posted(reply);
    }
    end := Drained;
  }

  // ---------------------------------------------------------------------------
  // Properties of the loop
  // ---------------------------------------------------------------------------

  /** `Shutdown` ends the loop; the commands behind it stay in the channel. */
  lemma ShutdownEnds(s: Option<Session>, rest: seq<Command>, io: nat -> Io, n: nat)
    ensures RunFrom(s, [Shutdown] + rest, io, n) == Run([], Stopped, 1)
  {
  }

  /** A caught exception posts exactly its own response and the loop goes on with the next command. */
  lemma FailureKeepsRunning(s: Option<Session>, cmd: Command, rest: seq<Command>, io: nat -> Io, n: nat, f: Failure)
    requires Handle(s, cmd, io(n)) == Next(s, Some(Failed(f)))
    ensures RunFrom(s, [cmd] + rest, io, n) == Before([Failed(f)], 1, RunFrom(s, rest, io, n + 1))
    ensures Id(Failed(f)) == FailureId(f)
  {
    assert ([cmd] + rest)[1..] == rest;
  }

  /** Running `a` and then `b` in one go is running `a`, then `b` from where `a` left the connection. */
  predicate RunsInSequence(s: Option<Session>, a: seq<Command>, b: seq<Command>, io: nat -> Io, n: nat)
  {
    RunFrom(s, a + b, io, n)
      == Before(RunFrom(s, a, io, n).responses, |a|, RunFrom(SessionAfter(s, a, io, n), b, io, n + |a|))
  }

  /** Responses come in command order: a batch that drains the channel runs before the commands put after it. */
  lemma {:induction false} RunConcat(s: Option<Session>, a: seq<Command>, b: seq<Command>, io: nat -> Io, n: nat)
    requires RunFrom(s, a, io, n).end == Drained
    ensures RunsInSequence(s, a, b, io, n)
    decreases |a|
  {
    if a == [] {
      assert a + b == b;
    } else {
      var t := Handle(s, a[0], io(n));
      RunConcat(t.session, a[1..], b, io, n + 1);
      RunConcatStep(s, a, b, io, n);
    }
  }

  /** The inductive step of `RunConcat`. */
  lemma RunConcatStep(s: Option<Session>, a: seq<Command>, b: seq<Command>, io: nat -> Io, n: nat)
    requires a != [] && RunFrom(s, a, io, n).end == Drained
    requires Handle(s, a[0], io(n)).Next?
    requires RunsInSequence(Handle(s, a[0], io(n)).session, a[1..], b, io, n + 1)
    ensures RunsInSequence(s, a, b, io, n)
  {
    var t := Handle(s, a[0], io(n));
    var ra := RunFrom(t.session, a[1..], io, n + 1);
    var rb := RunFrom(SessionAfter(t.session, a[1..], io, n + 1), b, io, n + |a|);
    RunFromNext(s, a, io, n);
    assert (a + b)[0] == a[0] && (a + b)[1..] == a[1..] + b;
    RunFromNext(s, a + b, io, n);
    assert RunFrom(t.session, a[1..] + b, io, n + 1) == Before(ra.responses, |a| - 1, rb);
    BeforeTwice(Posted(t.reply), ra.responses, |a| - 1, rb);
  }

  /** Putting responses before a run, then more before those, is putting them all at once. */
  lemma BeforeTwice(first: seq<Response>, second: seq<Response>, taken: nat, r: Run)
    ensures Before(first, 1, Before(second, taken, r)) == Before(first + second, taken + 1, r)
  {
    assert first + (second + r.responses) == (first + second) + r.responses;
  }

  /** A command the connection handles and goes on from: its reply comes first, then the run of the rest. */
  lemma RunFromNext(s: Option<Session>, cmds: seq<Command>, io: nat -> Io, n: nat)
    requires cmds != [] && Handle(s, cmds[0], io(n)).Next?
    ensures var t := Handle(s, cmds[0], io(n));
      && RunFrom(s, cmds, io, n) == Before(Posted(t.reply), 1, RunFrom(t.session, cmds[1..], io, n + 1))
      && SessionAfter(s, cmds, io, n) == SessionAfter(t.session, cmds[1..], io, n + 1)
  {
  }

  /** The connection after running `cmds` from `s` (meaningful when the run drained the channel). */
  function SessionAfter(s: Option<Session>, cmds: seq<Command>, io: nat -> Io, n: nat): Option<Session>
    decreases |cmds|
  {
    if cmds == [] then s
    else
      match Handle(s, cmds[0], io(n))
      case Next(s', _) => SessionAfter(s', cmds[1..], io, n + 1)
      case _ => s
  }

  /**
   * Uploads run the write loop as written: `abc` with writes of two bytes
   * never gets an answer, and `abcd` with the same writes is reported
   * uploaded although the server received `abab`.
   */
  lemma UploadAsWritten(s: Session, local: string, remote: string, io: Io)
    requires io.openFile.None? && io.writes == [Accepted(2), Accepted(2)]
    ensures io.localData == [97, 98, 99] ==> Handle(Some(s), Upload(local, remote), io) == Stalled
    ensures io.localData == [97, 98, 99, 100] ==>
      && Handle(Some(s), Upload(local, remote), io) == Next(Some(s), Some(Uploaded(remote)))
      && UploadDataAsWritten(io.localData, io.writes).sent == [97, 98, 97, 98]
  {
    AsWrittenUploadFaults([]);
    assert io.writes == [Accepted(2), Accepted(2)] + [];
  }

  /** When every write takes its whole chunk, an upload answers what the intended loop would. */
  lemma UploadOnFullWrites(s: Session, local: string, remote: string, io: Io)
    requires io.openFile.None? && FullWrites(io.writes)
    ensures var r := UploadData(io.localData, io.writes);
      && (r.outcome == Sent ==> Handle(Some(s), Upload(local, remote), io) == Next(Some(s), Some(Uploaded(remote))))
      && (r.outcome.WriteFailed? ==>
            Handle(Some(s), Upload(local, remote), io) == Next(Some(s), Some(Failed(ClassifyUploadWrite(remote, r.outcome.fault)))))
      && (r.outcome == Unfinished ==> Handle(Some(s), Upload(local, remote), io) == Stalled)
  {
    AsWrittenAgreesOnFullWrites(io.localData, io.writes);
  }

  /** A connect with agent authentication, a listing, then `Shutdown`: the listing after it is never run. */
  lemma ConnectListShutdown(io: nat -> Io, user: string, host: string, port: int, dir: string, later: string)
    requires forall i :: io(i).construction.None? && io(i).login.LoggedIn? && io(i).opendir.None? && io(i).listing.end.None?
    ensures var r := RunFrom(None, [Connect(user, host, port), GetDir(dir), Shutdown, GetDir(later)], io, 0);
      && r.end == Stopped && r.consumed == 3
      && r.responses == [Connected(io(0).login.homeDir), DirListed(dir, Listing.Kept(io(1).listing.replies))]
  {
    var cmds := [Connect(user, host, port), GetDir(dir), Shutdown, GetDir(later)];
    assert cmds[1..] == [GetDir(dir), Shutdown, GetDir(later)];
    assert cmds[1..][1..] == [Shutdown, GetDir(later)];
    var home := io(0).login.homeDir;
    var s := Some(Session(user, host, port, home));
    assert Handle(None, cmds[0], io(0)) == Next(s, Some(Connected(home)));
    assert Handle(s, GetDir(dir), io(1)) == Next(s, Some(DirListed(dir, Listing.Kept(io(1).listing.replies))));
    assert RunFrom(s, [Shutdown, GetDir(later)], io, 2) == Run([], Stopped, 1);
  }
}
