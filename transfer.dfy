/**
 * The write loop of `SftpConnection::UploadFile`.
 *
 * The local file is read in `BUFLEN` chunks. Each chunk is handed to
 * `libssh2_sftp_write` until the server has taken all of it. A write call
 * takes some leading bytes of the request (`Accepted(k)`: at most `k` of
 * them) or fails (`Refused`). The sequence of answers the server gives is an
 * input; when it runs out while the loop would call again, the outcome is
 * `Unfinished`.
 *
 * The source passes `buf` and `rc` to `libssh2_sftp_write` where `p` and
 * `nread` are meant. `SendAsWritten` and `UploadDataAsWritten` keep that
 * behaviour, and the worker runs them; `Send` and `UploadData` are the
 * intended loops.
 */
module Transfer {
  import opened Failures

  type Byte = bv8

  /** `BUFLEN`, the size of the transfer buffer. */
  const BUFLEN: nat := 4096

  /** The answer to one `libssh2_sftp_write` call. */
  datatype WriteReply = Accepted(limit: nat) | Refused(fault: Fault)

  datatype SendOutcome = Sent | WriteFailed(fault: Fault) | Unfinished

  /** What was sent, how the loop ended, and the server answers not yet used. */
  datatype Sending = Sending(sent: seq<Byte>, outcome: SendOutcome, rest: seq<WriteReply>)

  function Min(a: nat, b: nat): nat
  {
    if a < b then a else b
  }

  /** `s` followed by what `r` sent. */
  function Prepend(s: seq<Byte>, r: Sending): Sending
  {
    r.(sent := s + r.sent)
  }

  // ---------------------------------------------------------------------------
  // The loop as written
  // ---------------------------------------------------------------------------

  /**
   * `while (nread) { rc = libssh2_sftp_write(handle, buf, rc); ... nread -= rc; }`:
   * every call sends the first `rc` bytes of the buffer again, where `rc` is
   * what the previous call took.
   */
  function SendAsWritten(buf: seq<Byte>, rc: nat, nread: int, replies: seq<WriteReply>): Sending
    requires rc <= |buf|
    decreases |replies|
  {
    if nread == 0 then Sending([], Sent, replies)
    else if replies == [] then Sending([], Unfinished, [])
    else
      match replies[0]
      case Refused(f) => Sending([], WriteFailed(f), replies[1..])
      case Accepted(k) =>
        var n := Min(k, rc);
        Prepend(buf[..n], SendAsWritten(buf, n, nread - n, replies[1..]))
  }

  /** The inner loop of `UploadFile` as written, for one chunk read by `fread`. */
  method SendChunkAsWritten(buf: seq<Byte>, replies: seq<WriteReply>) returns (r: Sending)
    requires |buf| > 0
    ensures r == SendAsWritten(buf, |buf|, |buf|, replies)
  {
    var rc: nat := |buf|;
    var nread: int := |buf|;
    var sent: seq<Byte> := [];
    var i := 0;
    while nread != 0
      invariant 0 <= i <= |replies| && rc <= |buf|
      invariant SendAsWritten(buf, |buf|, |buf|, replies) == Prepend(sent, SendAsWritten(buf, rc, nread, replies[i..]))
      decreases |replies| - i
    {
      if i == |replies| {
        return Sending(sent, Unfinished, []);
      }
      assert replies[i..][0] == replies[i] && replies[i..][1..] == replies[i + 1..];
      match replies[i]
      case Refused(f) =>
        return Sending(sent, WriteFailed(f), replies[i + 1..]);
      case Accepted(k) =>
        var n := Min(k, rc);
        AsWrittenAccepted(buf, rc, nread, replies[i..]);
        PrependTwice(sent, buf[..n], SendAsWritten(buf, n, nread - n, replies[i + 1..]));
        sent := sent + buf[..n];
        rc := n;
        nread := nread - n;
        i := i + 1;
    }
    r := Sending(sent, Sent, replies[i..]);
  }

  /** A write the server accepts, in the loop as written. */
  lemma AsWrittenAccepted(buf: seq<Byte>, rc: nat, nread: int, replies: seq<WriteReply>)
    requires rc <= |buf| && nread != 0 && replies != [] && replies[0].Accepted?
    ensures var n := Min(replies[0].limit, rc);
      SendAsWritten(buf, rc, nread, replies) == Prepend(buf[..n], SendAsWritten(buf, n, nread - n, replies[1..]))
  {
  }

  lemma PrependTwice(a: seq<Byte>, b: seq<Byte>, r: Sending)
    ensures Prepend(a, Prepend(b, r)) == Prepend(a + b, r)
  {
    assert a + (b + r.sent) == (a + b) + r.sent;
  }

  /** With a server that takes two bytes per call, `abcd` goes out as `abab` and the loop reports success. */
  lemma AsWrittenRepeatsBytes()
    ensures SendAsWritten([97, 98, 99, 100], 4, 4, [Accepted(2), Accepted(2)])
         == Sending([97, 98, 97, 98], Sent, [])
  {
    var buf: seq<Byte> := [97, 98, 99, 100];
    var last := SendAsWritten(buf, 2, 0, []);
    assert last == Sending([], Sent, []);
    assert [Accepted(2), Accepted(2)][1..] == [Accepted(2)];
    assert [Accepted(2)][1..] == [];
    assert SendAsWritten(buf, 2, 2, [Accepted(2)]) == Prepend(buf[..2], last);
    assert buf[..2] == [97, 98];
  }

  /**
   * With three bytes taken two at a time `nread` goes from 1 to -1, so the
   * loop never ends on `nread == 0`: whatever the server answers next, the
   * chunk is never reported sent.
   */
  lemma AsWrittenOvershoots(more: seq<WriteReply>)
    ensures SendAsWritten([97, 98, 99], 3, 3, [Accepted(2), Accepted(2)] + more)
         == Prepend([97, 98, 97, 98], SendAsWritten([97, 98, 99], 2, -1, more))
    ensures SendAsWritten([97, 98, 99], 3, 3, [Accepted(2), Accepted(2)] + more).outcome != Sent
  {
    var buf: seq<Byte> := [97, 98, 99];
    var rs := [Accepted(2), Accepted(2)] + more;
    assert rs[0] == Accepted(2) && rs[1..][0] == Accepted(2) && rs[1..][1..] == more;
    assert buf[..2] == [97, 98];
    NegativeNeverSent(buf, 2, -1, more);
  }

  /** Once `nread` is negative, the loop as written can fail or run out of answers, but never report success. */
  lemma {:induction false} NegativeNeverSent(buf: seq<Byte>, rc: nat, nread: int, replies: seq<WriteReply>)
    requires rc <= |buf| && nread < 0
    ensures SendAsWritten(buf, rc, nread, replies).outcome != Sent
    decreases |replies|
  {
    if replies != [] && replies[0].Accepted? {
      var n := Min(replies[0].limit, rc);
      NegativeNeverSent(buf, n, nread - n, replies[1..]);
    }
  }

  // ---------------------------------------------------------------------------
  // The intended loop
  // ---------------------------------------------------------------------------

  /** `while (nread) { rc = libssh2_sftp_write(handle, p, nread); ... p += rc; nread -= rc; }`. */
  function Send(buf: seq<Byte>, offset: nat, replies: seq<WriteReply>): Sending
    requires offset <= |buf|
    decreases |replies|
  {
    if offset == |buf| then Sending([], Sent, replies)
    else if replies == [] then Sending([], Unfinished, [])
    else
      match replies[0]
      case Refused(f) => Sending([], WriteFailed(f), replies[1..])
      case Accepted(k) =>
        var n := Min(k, |buf| - offset);
        Prepend(buf[offset..offset + n], Send(buf, offset + n, replies[1..]))
  }

  /** The inner loop of `UploadFile` with `p` and `nread` passed to the write call. */
  method SendChunk(buf: seq<Byte>, replies: seq<WriteReply>) returns (r: Sending)
    ensures r == Send(buf, 0, replies)
  {
    var p: nat := 0;
    var sent: seq<Byte> := [];
    var i := 0;
    while p != |buf|
      invariant 0 <= i <= |replies| && p <= |buf|
      invariant Send(buf, 0, replies) == Prepend(sent, Send(buf, p, replies[i..]))
      decreases |replies| - i
    {
      if i == |replies| {
        return Sending(sent, Unfinished, []);
      }
      assert replies[i..][0] == replies[i] && replies[i..][1..] == replies[i + 1..];
      match replies[i]
      case Refused(f) =>
        return Sending(sent, WriteFailed(f), replies[i + 1..]);
      case Accepted(k) =>
        var n := Min(k, |buf| - p);
        SendAccepted(buf, p, replies[i..]);
        PrependTwice(sent, buf[p..p + n], Send(buf, p + n, replies[i + 1..]));
        sent := sent + buf[p..p + n];
        p := p + n;
        i := i + 1;
    }
    r := Sending(sent, Sent, replies[i..]);
  }

  /** The intended loop sends a prefix of the chunk, and all of it when it reports success. */
  lemma {:induction false} SendDelivers(buf: seq<Byte>, offset: nat, replies: seq<WriteReply>)
    requires offset <= |buf|
    ensures var r := Send(buf, offset, replies);
      && r.sent <= buf[offset..]
      && (r.outcome == Sent ==> r.sent == buf[offset..])
      && |r.rest| <= |replies|
    decreases |replies|
  {
    if offset < |buf| && replies != [] && replies[0].Accepted? {
      var n := Min(replies[0].limit, |buf| - offset);
      var head := buf[offset..offset + n];
      var rest := Send(buf, offset + n, replies[1..]);
      SendAccepted(buf, offset, replies);
      SendDelivers(buf, offset + n, replies[1..]);
      assert buf[offset..] == head + buf[offset + n..];
      PrefixAfter(head, rest.sent, buf[offset + n..]);
    }
  }

  /** A write the server accepts sends its bytes ahead of what the later writes send. */
  lemma SendAccepted(buf: seq<Byte>, offset: nat, replies: seq<WriteReply>)
    requires offset < |buf| && replies != [] && replies[0].Accepted?
    ensures var n := Min(replies[0].limit, |buf| - offset);
      Send(buf, offset, replies) == Prepend(buf[offset..offset + n], Send(buf, offset + n, replies[1..]))
  {
  }

  /** Putting the same bytes in front keeps a prefix a prefix. */
  lemma PrefixAfter(head: seq<Byte>, a: seq<Byte>, b: seq<Byte>)
    requires a <= b
    ensures head + a <= head + b
  {
    assert (head + b)[..|head + a|] == head + a;
  }

  /** When the first write takes the whole chunk, the loop as written does what was intended. */
  lemma AsWrittenFineOnFullWrite(buf: seq<Byte>, k: nat, more: seq<WriteReply>)
    requires 0 < |buf| <= k
    ensures SendAsWritten(buf, |buf|, |buf|, [Accepted(k)] + more) == Send(buf, 0, [Accepted(k)] + more)
  {
    var rs := [Accepted(k)] + more;
    assert rs[0] == Accepted(k) && rs[1..] == more;
    assert buf[..|buf|] == buf[0..|buf|];
  }

  // ---------------------------------------------------------------------------
  // The whole upload
  // ---------------------------------------------------------------------------

  /** What `fread` returns from what is left of the file: up to `BUFLEN` bytes. */
  function NextChunk(data: seq<Byte>): (c: seq<Byte>)
    requires data != []
    ensures 0 < |c| <= BUFLEN && |c| <= |data| && c == data[..|c|]
  {
    data[..Min(BUFLEN, |data|)]
  }

  /** The outer loop of `UploadFile` as written: `fread` chunks until none is left, sending each with the inner loop as written. */
  function UploadDataAsWritten(data: seq<Byte>, replies: seq<WriteReply>): Sending
    decreases |data|
  {
    if data == [] then Sending([], Sent, replies)
    else
      var chunk := NextChunk(data);
      var r := SendAsWritten(chunk, |chunk|, |chunk|, replies);
      if r.outcome != Sent then r
      else Prepend(r.sent, UploadDataAsWritten(data[|chunk|..], r.rest))
  }

  /** One chunk of the outer loop as written. */
  lemma UploadDataAsWrittenStep(data: seq<Byte>, replies: seq<WriteReply>)
    requires data != []
    ensures var chunk := NextChunk(data);
      var c := SendAsWritten(chunk, |chunk|, |chunk|, replies);
      && (c.outcome != Sent ==> UploadDataAsWritten(data, replies) == c)
      && (c.outcome == Sent ==> UploadDataAsWritten(data, replies) == Prepend(c.sent, UploadDataAsWritten(data[|chunk|..], c.rest)))
  {
  }

  /** `UploadFile`'s read/write loop as the program has it. */
  method UploadLoopAsWritten(data: seq<Byte>, replies: seq<WriteReply>) returns (r: Sending)
    ensures r == UploadDataAsWritten(data, replies)
  {
    var pos := 0;
    var rs := replies;
    var sent: seq<Byte> := [];
    while pos < |data|
      invariant 0 <= pos <= |data|
      invariant UploadDataAsWritten(data, replies) == Prepend(sent, UploadDataAsWritten(data[pos..], rs))
      decreases |data| - pos
    {
      var chunk := NextChunk(data[pos..]);
      var c := SendChunkAsWritten(chunk, rs);
      UploadDataAsWrittenStep(data[pos..], rs);
      if c.outcome != Sent {
        return Prepend(sent, c);
      }
      assert data[pos..][|chunk|..] == data[pos + |chunk|..];
      PrependTwice(sent, c.sent, UploadDataAsWritten(data[pos + |chunk|..], c.rest));
      sent := sent + c.sent;
      rs := c.rest;
      pos := pos + |chunk|;
    }
    assert data[pos..] == [];
    r := Sending(sent, Sent, rs);
  }

  /**
   * The upload as written: `abcd` with writes of two bytes reports success
   * after the server received `abab`, and `abc` with the same writes never
   * reports success, whatever the server answers afterwards.
   */
  lemma AsWrittenUploadFaults(more: seq<WriteReply>)
    ensures UploadDataAsWritten([97, 98, 99, 100], [Accepted(2), Accepted(2)]) == Sending([97, 98, 97, 98], Sent, [])
    ensures UploadDataAsWritten([97, 98, 99], [Accepted(2), Accepted(2)] + more).outcome != Sent
  {
    var abcd: seq<Byte> := [97, 98, 99, 100];
    assert NextChunk(abcd) == abcd;
    AsWrittenRepeatsBytes();
    assert abcd[4..] == [];
    var abc: seq<Byte> := [97, 98, 99];
    assert NextChunk(abc) == abc;
    AsWrittenOvershoots(more);
  }

  /** Every write takes at least a whole buffer. */
  predicate FullWrites(replies: seq<WriteReply>)
  {
    forall i :: 0 <= i < |replies| ==> replies[i].Accepted? && replies[i].limit >= BUFLEN
  }

  /** When every write takes its whole chunk, the upload as written does what was intended. */
  lemma {:induction false} AsWrittenAgreesOnFullWrites(data: seq<Byte>, replies: seq<WriteReply>)
    requires FullWrites(replies)
    ensures UploadDataAsWritten(data, replies) == UploadData(data, replies)
    decreases |data|
  {
    if data != [] && replies != [] {
      var chunk := NextChunk(data);
      var k := replies[0].limit;
      assert [Accepted(k)] + replies[1..] == replies;
      AsWrittenFineOnFullWrite(chunk, k, replies[1..]);
      SendAccepted(chunk, 0, replies);
      assert chunk[0..|chunk|] == chunk;
      assert Send(chunk, 0, replies) == Sending(chunk, Sent, replies[1..]);
      assert FullWrites(replies[1..]);
      AsWrittenAgreesOnFullWrites(data[|chunk|..], replies[1..]);
    }
  }

  /** The outer loop of `UploadFile` as intended: `fread` chunks until none is left, sending each with the intended loop. */
  function UploadData(data: seq<Byte>, replies: seq<WriteReply>): Sending
    decreases |data|
  {
    if data == [] then Sending([], Sent, replies)
    else
      var chunk := NextChunk(data);
      var r := Send(chunk, 0, replies);
      if r.outcome != Sent then r
      else Prepend(r.sent, UploadData(data[|chunk|..], r.rest))
  }

  /** One chunk of the outer loop: a failed chunk ends the upload, a sent one goes on with the rest of the file. */
  lemma UploadDataStep(data: seq<Byte>, replies: seq<WriteReply>)
    requires data != []
    ensures var chunk := NextChunk(data);
      var c := Send(chunk, 0, replies);
      && (c.outcome != Sent ==> UploadData(data, replies) == c)
      && (c.outcome == Sent ==> UploadData(data, replies) == Prepend(c.sent, UploadData(data[|chunk|..], c.rest)))
  {
  }

  /** The outer loop of `UploadFile` with the intended inner loop. */
  method UploadLoop(data: seq<Byte>, replies: seq<WriteReply>) returns (r: Sending)
    ensures r == UploadData(data, replies)
  {
    var pos := 0;
    var rs := replies;
    var sent: seq<Byte> := [];
    while pos < |data|
      invariant 0 <= pos <= |data|
      invariant UploadData(data, replies) == Prepend(sent, UploadData(data[pos..], rs))
      decreases |data| - pos
    {
      var chunk := NextChunk(data[pos..]);
      var c := SendChunk(chunk, rs);
      UploadDataStep(data[pos..], rs);
      if c.outcome != Sent {
        return Prepend(sent, c);
      }
      assert data[pos..][|chunk|..] == data[pos + |chunk|..];
      PrependTwice(sent, c.sent, UploadData(data[pos + |chunk|..], c.rest));
      sent := sent + c.sent;
      rs := c.rest;
      pos := pos + |chunk|;
    }
    assert data[pos..] == [];
    r := Sending(sent, Sent, rs);
  }

  /** With the intended inner loop, an upload sends a prefix of the file, and the whole file when it succeeds. */
  lemma {:induction false} UploadDelivers(data: seq<Byte>, replies: seq<WriteReply>)
    ensures var r := UploadData(data, replies);
      && r.sent <= data
      && (r.outcome == Sent ==> r.sent == data)
    decreases |data|
  {
    if data != [] {
      var chunk := NextChunk(data);
      var c := Send(chunk, 0, replies);
      SendDelivers(chunk, 0, replies);
      assert chunk[0..] == chunk;
      if c.outcome == Sent {
        UploadDelivers(data[|chunk|..], c.rest);
        assert data == chunk + data[|chunk|..];
      }
    }
  }
}
