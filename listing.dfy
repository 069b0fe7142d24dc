/**
 * `DirEntry` and the directory listing of `SftpConnection::GetDir`.
 *
 * The server's answers are inputs. `opendir` tells whether
 * `libssh2_sftp_opendir` returned a handle, and the `DirStream` lists what
 * successive `libssh2_sftp_readdir_ex` calls returned up to the call that
 * ended the loop (0, or a negative code).
 */
module Listing {
  import opened Wrappers
  import opened Text
  import opened Failures

  // Attribute flags (`LIBSSH2_SFTP_ATTR_*`) and the directory bit of a mode.
  const ATTR_SIZE: nat := 0x1
  const ATTR_PERMISSIONS: nat := 0x4
  const ATTR_ACMODTIME: nat := 0x8
  const S_IFDIR: nat := 0x4000

  /** Whether the single-bit mask `bit` is set in `word`. */
  predicate HasBit(word: nat, bit: nat)
    requires bit > 0
  {
    (word / bit) % 2 == 1
  }

  /**
   * One listed entry. `mode` and `isDir` are `None` when the server sent no
   * permissions, where the source leaves `mode_` and `isDir_` at the value
   * `DirEntry()` gives them.
   */
  datatype DirEntry = DirEntry(
    name: string,
    size: nat,
    modified: nat,
    mode: Option<nat>,
    modeStr: string,
    owner: string,
    group: string,
    isDir: Option<bool>)

  /** Whether the entry is shown as a directory. */
  predicate IsDir(e: DirEntry)
  {
    e.isDir == Some(true)
  }

  /** `LIBSSH2_SFTP_ATTRIBUTES`, as far as `GetDir` reads it. */
  datatype Attrs = Attrs(flags: nat, filesize: nat, mtime: nat, permissions: nat)

  /** One entry as `libssh2_sftp_readdir_ex` returns it: name, attributes, long-listing line. */
  datatype RawEntry = RawEntry(name: string, attrs: Attrs, longEntry: string)

  /** A readdir call that returned a positive count (an entry) or `LIBSSH2_ERROR_EAGAIN`. */
  datatype DirReply = Again | Entry(raw: RawEntry)

  /** The readdir answers before the loop ended, and the fault if it ended with a negative code. */
  datatype DirStream = DirStream(replies: seq<DirReply>, end: Option<Fault>)

  // ---------------------------------------------------------------------------
  // The long-listing line
  // ---------------------------------------------------------------------------

  /**
   * The mode string, owner and group read from the tokens of the long
   * listing line: tokens 0, 2 and 3 (each empty when missing), or nothing at
   * all when token 0 is not exactly ten characters long.
   */
  function Positional(tokens: seq<string>): (string, string, string)
  {
    if tokens == [] || |tokens[0]| != 10 then ("", "", "")
    else (tokens[0], if |tokens| > 2 then tokens[2] else "", if |tokens| > 3 then tokens[3] else "")
  }

  /** What `GetDir` takes from a long-listing line, split at single spaces with empty tokens skipped. */
  function LongLine(line: string): (string, string, string)
  {
    Positional(Tokens(line, ' '))
  }

  /** The getline loop over the long-listing line, with its `field_num` counter and early `break`. */
  method ParseLongLine(line: string) returns (modeStr: string, owner: string, group: string)
    ensures (modeStr, owner, group) == LongLine(line)
  {
    var segments := SplitFields(line, ' ');
    GetlineTokens(line, ' ');
    modeStr, owner, group := "", "", "";
    var fieldNum := 0;
    var i := 0;
    while i < |segments|
      invariant 0 <= i <= |segments|
      invariant fieldNum == |NonEmpty(segments[..i])|
      invariant fieldNum > 0 ==> |NonEmpty(segments[..i])[0]| == 10
      invariant (modeStr, owner, group) == Positional(NonEmpty(segments[..i]))
    {
      var segment := segments[i];
      assert segments[..i + 1][..i] == segments[..i];
      var seen := NonEmpty(segments[..i + 1]);
      if segment == "" {
        i := i + 1;
        continue;
      }
      assert seen == NonEmpty(segments[..i]) + [segment];
      if fieldNum == 0 {
        if |segment| != 10 {
          // The line is not in the expected format.
          assert segments == segments[..i + 1] + segments[i + 1..];
          NonEmptyConcat(segments[..i + 1], segments[i + 1..]);
          assert NonEmpty(segments)[0] == segment;
          return;
        }
        modeStr := segment;
      }
      if fieldNum == 2 {
        owner := segment;
      }
      if fieldNum == 3 {
        group := segment;
      }
      fieldNum := fieldNum + 1;
      i := i + 1;
    }
    assert segments[..|segments|] == segments;
  }

  // ---------------------------------------------------------------------------
  // Entries
  // ---------------------------------------------------------------------------

  /** The `DirEntry` that `GetDir` builds for one readdir result. */
  function EntryOf(raw: RawEntry): (e: DirEntry)
    ensures e.name == raw.name
    ensures e.size == (if HasBit(raw.attrs.flags, ATTR_SIZE) then raw.attrs.filesize else 0)
    ensures e.modified == (if HasBit(raw.attrs.flags, ATTR_ACMODTIME) then raw.attrs.mtime else 0)
    ensures e.mode.Some? <==> HasBit(raw.attrs.flags, ATTR_PERMISSIONS)
    ensures e.isDir.Some? <==> HasBit(raw.attrs.flags, ATTR_PERMISSIONS)
    ensures e.mode.Some? ==> e.mode.value == raw.attrs.permissions
    ensures e.isDir.Some? ==> (e.isDir.value <==> HasBit(raw.attrs.permissions, S_IFDIR))
  {
    var a := raw.attrs;
    var (modeStr, owner, group) := LongLine(raw.longEntry);
    DirEntry(
      raw.name,
      if HasBit(a.flags, ATTR_SIZE) then a.filesize else 0,
      if HasBit(a.flags, ATTR_ACMODTIME) then a.mtime else 0,
      if HasBit(a.flags, ATTR_PERMISSIONS) then Some(a.permissions) else None,
      modeStr, owner, group,
      if HasBit(a.flags, ATTR_PERMISSIONS) then Some(HasBit(a.permissions, S_IFDIR)) else None)
  }

  /** The body of the readdir loop for one entry. */
  method BuildEntry(raw: RawEntry) returns (d: DirEntry)
    ensures d == EntryOf(raw)
  {
    d := DirEntry(raw.name, 0, 0, None, "", "", "", None);
    var a := raw.attrs;
    if HasBit(a.flags, ATTR_SIZE) {
      d := d.(size := a.filesize);
    }
    if HasBit(a.flags, ATTR_ACMODTIME) {
      d := d.(modified := a.mtime);
    }
    if HasBit(a.flags, ATTR_PERMISSIONS) {
      d := d.(mode := Some(a.permissions), isDir := Some(HasBit(a.permissions, S_IFDIR)));
    }
    var modeStr, owner, group := ParseLongLine(raw.longEntry);
    d := d.(modeStr := modeStr, owner := owner, group := group);
  }

  /** The entries `GetDir` keeps from the readdir answers, in the order the server sent them. */
  function Kept(replies: seq<DirReply>): (r: seq<DirEntry>)
    ensures forall i :: 0 <= i < |r| ==> r[i].name != "."
    ensures |r| <= |replies|
    decreases |replies|
  {
    if replies == [] then []
    else
      var last := replies[|replies| - 1];
      Kept(replies[..|replies| - 1])
      + (if last.Entry? && last.raw.name != "." then [EntryOf(last.raw)] else [])
  }

  /** `GetDir(path)`: the listing, or the failure it throws. */
  function ListDir(path: string, opendir: Option<Fault>, stream: DirStream): Result<seq<DirEntry>, Failure>
  {
    if opendir.Some? then Err(ClassifyOpendir(path, opendir.value))
    else if stream.end.Some? then Err(ConnectionError("libssh2_sftp_readdir_ex failed. " + stream.end.value.message))
    else Ok(Kept(stream.replies))
  }

  /** `SftpConnection::GetDir`: the readdir loop collecting entries. */
  method GetDir(path: string, opendir: Option<Fault>, stream: DirStream) returns (r: Result<seq<DirEntry>, Failure>)
    ensures r == ListDir(path, opendir, stream)
  {
    if opendir.Some? {
      return Err(ClassifyOpendir(path, opendir.value));
    }
    var files: seq<DirEntry> := [];
    var i := 0;
    while i < |stream.replies|
      invariant 0 <= i <= |stream.replies|
      invariant files == Kept(stream.replies[..i])
    {
      KeptStep(stream.replies, i);
      var reply := stream.replies[i];
      i := i + 1;
      if reply.Again? {
        continue;
      }
      if reply.raw.name == "." {
        continue;
      }
      var d := BuildEntry(reply.raw);
      files := files + [d];
    }
    assert stream.replies[..|stream.replies|] == stream.replies;
    if stream.end.Some? {
      return Err(ConnectionError("libssh2_sftp_readdir_ex failed. " + stream.end.value.message));
    }
    r := Ok(files);
  }

  /** One more answer adds its entry when it names something other than `.`. */
  lemma KeptStep(replies: seq<DirReply>, i: int)
    requires 0 <= i < |replies|
    ensures replies[i].Entry? && replies[i].raw.name != "." ==>
      Kept(replies[..i + 1]) == Kept(replies[..i]) + [EntryOf(replies[i].raw)]
    ensures !(replies[i].Entry? && replies[i].raw.name != ".") ==> Kept(replies[..i + 1]) == Kept(replies[..i])
  {
    assert replies[..i + 1][..i] == replies[..i];
  }

  // ---------------------------------------------------------------------------
  // Properties of the listing
  // ---------------------------------------------------------------------------

  /** The kept entries of two runs of answers are those of the first, then those of the second. */
  lemma {:induction false} KeptConcat(a: seq<DirReply>, b: seq<DirReply>)
    ensures Kept(a + b) == Kept(a) + Kept(b)
    decreases |b|
  {
    if b == [] {
      assert a + b == a;
    } else {
      assert (a + b)[..|a + b| - 1] == a + b[..|b| - 1];
      KeptConcat(a, b[..|b| - 1]);
    }
  }

  /** Exactly the entries not named `.` are kept, each built from its own answer; `EAGAIN` adds nothing. */
  lemma KeptOne(reply: DirReply)
    ensures Kept([reply]) == if reply.Entry? && reply.raw.name != "." then [EntryOf(reply.raw)] else []
  {
    assert [reply][..0] == [];
  }

  /** An entry sits in the listing exactly when the server sent it under a name other than `.`. */
  lemma {:induction false} KeptMembers(replies: seq<DirReply>, raw: RawEntry)
    requires raw.name != "."
    ensures Entry(raw) in replies ==> EntryOf(raw) in Kept(replies)
    ensures forall e :: e in Kept(replies) ==> exists r :: r in replies && r.Entry? && e == EntryOf(r.raw)
    decreases |replies|
  {
    if replies != [] {
      var front, last := replies[..|replies| - 1], replies[|replies| - 1];
      assert replies == front + [last];
      KeptMembers(front, raw);
      forall e | e in Kept(replies)
        ensures exists r :: r in replies && r.Entry? && e == EntryOf(r.raw)
      {
        if e in Kept(front) {
          var r :| r in front && r.Entry? && e == EntryOf(r.raw);
          assert r in replies;
        } else {
          assert last in replies;
        }
      }
    }
  }

  /** Runs of spaces separate tokens like a single space. */
  lemma RepeatedSpaces(a: string, b: string)
    ensures LongLine(a + " " + " " + b) == LongLine(a + " " + b)
  {
    RepeatedSeparator(a, b, ' ');
  }

  /** Only the space separates: a line without one is a single token. */
  lemma NoSpaceOneToken(line: string)
    requires ' ' !in line && line != ""
    ensures LongLine(line) == if |line| == 10 then (line, "", "") else ("", "", "")
  {
    FieldsOfSeparatorFree(line, ' ');
    assert NonEmpty([line]) == [line] by {
      assert [line][..0] == [];
    }
  }

  /** A word with no space in it. */
  predicate IsWord(w: string)
  {
    w != "" && ' ' !in w
  }

  /** The fields of words joined by single spaces are the words. */
  lemma WordsFields(a: string, b: string)
    requires IsWord(b)
    ensures Fields(a + " " + b, ' ') == Fields(a, ' ') + [b]
  {
    assert a + " " + b == a + [' '] + b;
    FieldsConcat(a, b, ' ');
    FieldsOfSeparatorFree(b, ' ');
  }

  /** Fields that are all non-empty are all tokens. */
  lemma {:induction false} NonEmptyOfWords(ws: seq<string>)
    requires forall i :: 0 <= i < |ws| ==> ws[i] != ""
    ensures NonEmpty(ws) == ws
    decreases |ws|
  {
    if ws != [] {
      NonEmptyOfWords(ws[..|ws| - 1]);
    }
  }

  /** The fields of four words joined by single spaces. */
  lemma FourWords(mode: string, links: string, owner: string, group: string)
    requires IsWord(mode) && IsWord(links) && IsWord(owner) && IsWord(group)
    ensures Fields(mode + " " + links + " " + owner + " " + group, ' ') == [mode, links, owner, group]
  {
    FieldsOfSeparatorFree(mode, ' ');
    WordsFields(mode, links);
    WordsFields(mode + " " + links, owner);
    WordsFields(mode + " " + links + " " + owner, group);
  }

  /**
   * An `ls -l` style line, `mode links owner group rest`, with a ten-character
   * mode: the mode string, owner and group are the first, third and fourth word.
   */
  lemma LsLine(mode: string, links: string, owner: string, group: string, rest: string)
    requires IsWord(mode) && |mode| == 10 && IsWord(links) && IsWord(owner) && IsWord(group)
    ensures LongLine(mode + " " + links + " " + owner + " " + group + " " + rest) == (mode, owner, group)
  {
    var four := mode + " " + links + " " + owner + " " + group;
    var words := [mode, links, owner, group];
    assert Fields(four + " " + rest, ' ') == words + Fields(rest, ' ') by {
      assert four + " " + rest == four + [' '] + rest;
      FieldsConcat(four, rest, ' ');
      FourWords(mode, links, owner, group);
    }
    assert Tokens(four + " " + rest, ' ') == words + NonEmpty(Fields(rest, ' ')) by {
      NonEmptyConcat(words, Fields(rest, ' '));
      NonEmptyOfWords(words);
    }
  }
}
