/**
 * The exception classes of main.cpp and the branches of `SftpConnection`
 * that choose between them after a failed libssh2 call.
 *
 * After a failure the session reports three things: the session's last
 * errno, the SFTP status code of the last server reply, and the session's
 * last error text. They are the inputs, as a `Fault`. The constants are the
 * values libssh2's headers give them.
 */
module Failures {

  /** `LIBSSH2_ERROR_SFTP_PROTOCOL`: the server answered with an SFTP status other than OK. */
  const SFTP_PROTOCOL: int := -31

  // SFTP status codes (`LIBSSH2_FX_*`).
  const FX_NO_SUCH_FILE: nat := 2
  const FX_PERMISSION_DENIED: nat := 3
  const FX_NO_SUCH_PATH: nat := 10
  const FX_WRITE_PROTECT: nat := 12
  const FX_NO_MEDIA: nat := 13
  const FX_NO_SPACE_ON_FILESYSTEM: nat := 14

  /**
   * What the session says after a failed call: `libssh2_session_last_errno`,
   * `libssh2_sftp_last_error` and the text `GetLastErrorMsg` returns.
   */
  datatype Fault = Fault(errno: int, status: nat, message: string)

  predicate IsProtocol(fault: Fault)
  {
    fault.errno == SFTP_PROTOCOL
  }

  /** The eight exception classes; all but `ConnectionError` carry the remote path they concern. */
  datatype Failure =
    | DownloadFailed(remotePath: string)
    | DownloadFailedPermission(remotePath: string)
    | UploadFailed(remotePath: string)
    | UploadFailedPermission(remotePath: string)
    | UploadFailedSpace(remotePath: string)
    | DirListFailedPermission(remotePath: string)
    | FileNotFound(remotePath: string)
    | ConnectionError(msg: string)

  /** A failure about one remote file or directory, as opposed to a broken connection. */
  predicate IsFileFailure(f: Failure)
  {
    !f.ConnectionError?
  }

  /** `libssh2_sftp_opendir` returned no handle (`GetDir`). */
  function ClassifyOpendir(path: string, fault: Fault): (r: Failure)
    ensures r.DirListFailedPermission? <==> IsProtocol(fault) && fault.status == FX_PERMISSION_DENIED
    ensures r.FileNotFound? <==>
      IsProtocol(fault) && fault.status in {FX_NO_SUCH_PATH, FX_NO_SUCH_FILE, FX_NO_MEDIA}
    ensures r.DirListFailedPermission? || r.FileNotFound? || r == ConnectionError("libssh2_sftp_opendir failed. " + fault.message)
    ensures IsFileFailure(r) ==> r.remotePath == path
  {
    if IsProtocol(fault) && fault.status == FX_PERMISSION_DENIED then
      DirListFailedPermission(path)
    else if IsProtocol(fault) && (fault.status == FX_NO_SUCH_PATH || fault.status == FX_NO_SUCH_FILE || fault.status == FX_NO_MEDIA) then
      FileNotFound(path)
    else
      ConnectionError("libssh2_sftp_opendir failed. " + fault.message)
  }

  /** `libssh2_sftp_open` for reading returned no handle (`DownloadFile`). */
  function ClassifyDownloadOpen(remotePath: string, fault: Fault): (r: Failure)
    ensures r.DownloadFailedPermission? <==>
      IsProtocol(fault) && fault.status in {FX_PERMISSION_DENIED, FX_WRITE_PROTECT}
    ensures r.DownloadFailed? <==>
      IsProtocol(fault) && fault.status !in {FX_PERMISSION_DENIED, FX_WRITE_PROTECT}
    ensures r.ConnectionError? <==> !IsProtocol(fault)
    ensures r.ConnectionError? ==> r.msg == fault.message
    ensures IsFileFailure(r) ==> r.remotePath == remotePath
  {
    if IsProtocol(fault) then
      if fault.status == FX_PERMISSION_DENIED || fault.status == FX_WRITE_PROTECT then
        DownloadFailedPermission(remotePath)
      else
        DownloadFailed(remotePath)
    else
      ConnectionError(fault.message)
  }

  /** `libssh2_sftp_read` returned a negative count (`DownloadFile`). */
  function ClassifyDownloadRead(remotePath: string, fault: Fault): (r: Failure)
    ensures IsProtocol(fault) ==> r == DownloadFailed(remotePath)
    ensures !IsProtocol(fault) ==> r == ConnectionError("libssh2_sftp_read failed. " + fault.message)
  {
    if IsProtocol(fault) then
      DownloadFailed(remotePath)
    else
      ConnectionError("libssh2_sftp_read failed. " + fault.message)
  }

  /** `libssh2_sftp_open` for writing returned no handle (`UploadFile`). */
  function ClassifyUploadOpen(remotePath: string, fault: Fault): (r: Failure)
    ensures r.UploadFailedPermission? <==>
      IsProtocol(fault) && fault.status in {FX_PERMISSION_DENIED, FX_WRITE_PROTECT}
    ensures r.UploadFailedSpace? <==> IsProtocol(fault) && fault.status == FX_NO_SPACE_ON_FILESYSTEM
    ensures r.UploadFailed? <==>
      IsProtocol(fault) && fault.status !in {FX_PERMISSION_DENIED, FX_WRITE_PROTECT, FX_NO_SPACE_ON_FILESYSTEM}
    ensures r.ConnectionError? <==> !IsProtocol(fault)
    ensures r.ConnectionError? ==> r.msg == fault.message
    ensures IsFileFailure(r) ==> r.remotePath == remotePath
  {
    if IsProtocol(fault) then
      if fault.status == FX_PERMISSION_DENIED || fault.status == FX_WRITE_PROTECT then
        UploadFailedPermission(remotePath)
      else if fault.status == FX_NO_SPACE_ON_FILESYSTEM then
        UploadFailedSpace(remotePath)
      else
        UploadFailed(remotePath)
    else
      ConnectionError(fault.message)
  }

  /** `libssh2_sftp_write` returned a negative count (`UploadFile`): never a permission failure. */
  function ClassifyUploadWrite(remotePath: string, fault: Fault): (r: Failure)
    ensures r.UploadFailedSpace? || r.UploadFailed? || r.ConnectionError?
    ensures r.UploadFailedSpace? <==> IsProtocol(fault) && fault.status == FX_NO_SPACE_ON_FILESYSTEM
    ensures r.UploadFailed? <==> IsProtocol(fault) && fault.status != FX_NO_SPACE_ON_FILESYSTEM
    ensures r.ConnectionError? ==> r.msg == "libssh2_sftp_write failed. " + fault.message
    ensures IsFileFailure(r) ==> r.remotePath == remotePath
  {
    if IsProtocol(fault) then
      if fault.status == FX_NO_SPACE_ON_FILESYSTEM then
        UploadFailedSpace(remotePath)
      else
        UploadFailed(remotePath)
    else
      ConnectionError("libssh2_sftp_write failed. " + fault.message)
  }

  /** The download kind that corresponds to an upload kind. */
  function AsDownload(f: Failure): Failure
  {
    match f
    case UploadFailed(p) => DownloadFailed(p)
    case UploadFailedPermission(p) => DownloadFailedPermission(p)
    case _ => f
  }

  /** Opening for upload classifies like opening for download except for a full disk. */
  lemma UploadOpenMirrorsDownloadOpen(remotePath: string, fault: Fault)
    requires fault.status != FX_NO_SPACE_ON_FILESYSTEM
    ensures AsDownload(ClassifyUploadOpen(remotePath, fault)) == ClassifyDownloadOpen(remotePath, fault)
  {
  }

  /** A failed write and a failed open agree whenever the status is not a permission one. */
  lemma UploadWriteMatchesOpen(remotePath: string, fault: Fault)
    requires IsProtocol(fault) && fault.status !in {FX_PERMISSION_DENIED, FX_WRITE_PROTECT}
    ensures ClassifyUploadWrite(remotePath, fault) == ClassifyUploadOpen(remotePath, fault)
  {
  }
}
