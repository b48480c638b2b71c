/** Reading a request head from a byte stream, and a stream that gives the head back. */
module Streams {
  import opened Text

  datatype ReadError = IoError | UnexpectedEof | HeadTooLarge

  datatype ReadResult = Success(bytes: string) | Failure(error: ReadError)

  const CHUNK := 4096
  const HEAD_LIMIT := 65536
  const TERMINATOR := "\r\n\r\n"

  /** A peer: it has some bytes left to deliver, in pieces of any size, and may fail at any read. */
  class ByteSource {
    var remaining: string
    /** Whether a read has failed. */
    ghost var failed: bool

    constructor (bytes: string)
      ensures remaining == bytes && !failed
    {
      remaining, failed := bytes, false;
    }

    method Read(capacity: nat) returns (r: ReadResult)
      modifies this
      ensures r.Failure? ==> r.error == IoError && remaining == old(remaining)
      ensures failed == (old(failed) || r.Failure?)
      ensures r.Success? ==> r.bytes + remaining == old(remaining) && |r.bytes| <= capacity
      ensures r.Success? ==> (r.bytes == "" <==> capacity == 0 || old(remaining) == "")
    {
      if * {
        failed := true;
        return Failure(IoError);
      }
      if capacity == 0 || remaining == "" {
        return Success("");
      }
      var n: nat :| 1 <= n <= |remaining| && n <= capacity;
      r := Success(remaining[..n]);
      remaining := remaining[n..];
    }
  }

  predicate HasTerminator(s: string) {
    exists i :: 0 <= i < |s| && TerminatorAt(s, i)
  }

  predicate TerminatorAt(s: string, i: int) {
    0 <= i <= |s| - 4 && s[i..i + 4] == TERMINATOR
  }

  lemma BlankLine(s: string)
    requires HasTerminator(s)
    ensures exists before, after :: s == before + "\r\n\r\n" + after
  {
    var i :| 0 <= i < |s| && TerminatorAt(s, i);
    assert s == s[..i] + "\r\n\r\n" + s[i + 4..];
  }

  lemma NoTerminatorInPrefix(s: string, n: nat)
    requires n <= |s| && !HasTerminator(s)
    ensures !HasTerminator(s[..n])
  {
    if i :| 0 <= i < n && TerminatorAt(s[..n], i) {
      assert s[i..i + 4] == s[..n][i..i + 4];
      assert TerminatorAt(s, i);
      assert false;
    }
  }

  /** Reads until the blank line.  Terminates on every stream: the buffer grows with each read
      and is bounded.  A head that ends within the limit can only be lost to an I/O error,
      and there is one only if a read of the stream failed. */
  method ReadRequestHead(stream: ByteSource) returns (head: ReadResult)
    modifies stream
    ensures head.Success? ==>
              && head.bytes + stream.remaining == old(stream.remaining)
              && (exists before, after :: head.bytes == before + "\r\n\r\n" + after)
              && |head.bytes| <= 65536 + 4096
    ensures head == Failure(UnexpectedEof) ==> !HasTerminator(old(stream.remaining)) && |old(stream.remaining)| <= 65536
    ensures stream.failed <==> old(stream.failed) || head == Failure(IoError)
    ensures head == Failure(HeadTooLarge) ==>
              |old(stream.remaining)| > 65536 && !HasTerminator(old(stream.remaining)[..65536])
  {
    ghost var all := stream.remaining;
    var buf := "";
    while true
      invariant buf + stream.remaining == all
      invariant |buf| <= HEAD_LIMIT && !HasTerminator(buf) && stream.failed == old(stream.failed)
      decreases HEAD_LIMIT - |buf|
    {
      var read := stream.Read(CHUNK);
      if read.Failure? {
        return read;
      }
      if read.bytes == "" {
        assert all == buf;
        return Failure(UnexpectedEof);
      }
      buf := buf + read.bytes;
      if HasTerminator(buf) {
        BlankLine(buf);
        return Success(buf);
      }
      if |buf| > HEAD_LIMIT {
        NoTerminatorInPrefix(buf, HEAD_LIMIT);
        assert buf[..HEAD_LIMIT] == all[..HEAD_LIMIT];
        return Failure(HeadTooLarge);
      }
    }
  }

  /** A stream that yields bytes already read before those still to come. */
  class PrefixedStream {
    const inner: ByteSource
    const prefix: string
    var prefixOffset: nat

    ghost predicate Valid()
      reads this
    {
      prefixOffset <= |prefix|
    }

    /** Everything the stream will still deliver. */
    ghost function Pending(): string
      requires Valid()
      reads this, inner
    {
      prefix[prefixOffset..] + inner.remaining
    }

    constructor (stream: ByteSource, bytes: string)
      ensures Valid() && inner == stream
      ensures Pending() == bytes + stream.remaining
    {
      inner, prefix, prefixOffset := stream, bytes, 0;
    }

    method Read(capacity: nat) returns (r: ReadResult)
      requires Valid()
      modifies this, inner
      ensures Valid()
      ensures r.Failure? ==> Pending() == old(Pending()) && r.error == IoError
      ensures inner.failed == (old(inner.failed) || r.Failure?)
      ensures r.Success? ==> r.bytes + Pending() == old(Pending()) && |r.bytes| <= capacity
      ensures r.Success? ==> (r.bytes == "" <==> capacity == 0 || old(Pending()) == "")
    {
      var left := |prefix| - prefixOffset;
      if left > 0 {
        var n := if left < capacity then left else capacity;
        r := Success(prefix[prefixOffset..prefixOffset + n]);
        assert prefix[prefixOffset..] == prefix[prefixOffset..prefixOffset + n] + prefix[prefixOffset + n..];
        prefixOffset := prefixOffset + n;
      } else {
        r := inner.Read(capacity);
      }
    }
  }

  /** Reads the head, then everything again through a prefixed stream with buffers of the given
      sizes: what is seen, followed by what is still pending, is the original stream.  With
      non-empty buffers, enough of them and no failing read, the whole stream is seen. */
  method ReadAfterHead(stream: ByteSource, capacities: seq<nat>) returns (head: ReadResult, seen: string, failed: bool, ghost pending: string)
    modifies stream
    ensures head.Success? ==> seen + pending == old(stream.remaining)
    ensures stream.failed <==> old(stream.failed) || head == Failure(IoError) || failed
    ensures head.Success? && !failed && |capacities| >= |old(stream.remaining)| && (forall c :: c in capacities ==> c > 0)
            ==> seen == old(stream.remaining)
  {
    ghost var all := stream.remaining;
    seen, failed, pending := "", false, "";
    head := ReadRequestHead(stream);
    if head.Failure? {
      return;
    }
    var prefixed := new PrefixedStream(stream, head.bytes);
    seen, failed := ReadPieces(prefixed, capacities);
    pending := prefixed.Pending();
  }

  method ReadPieces(stream: PrefixedStream, capacities: seq<nat>) returns (seen: string, failed: bool)
    requires stream.Valid()
    modifies stream, stream.inner
    ensures stream.Valid() && seen + stream.Pending() == old(stream.Pending())
    ensures stream.inner.failed == (old(stream.inner.failed) || failed)
    ensures !failed && (forall c :: c in capacities ==> c > 0) ==> |seen| >= |capacities| || stream.Pending() == ""
  {
    seen, failed := "", false;
    for i := 0 to |capacities|
      invariant stream.Valid() && seen + stream.Pending() == old(stream.Pending())
      invariant stream.inner.failed == (old(stream.inner.failed) || failed)
      invariant !failed && (forall c :: c in capacities ==> c > 0) ==> |seen| >= i || stream.Pending() == ""
    {
      assert capacities[i] in capacities;
      ghost var before := stream.Pending();
      var read := stream.Read(capacities[i]);
      if read.Failure? {
        failed := true;
      } else {
        seen := seen + read.bytes;
        assert read.bytes == "" ==> stream.Pending() == before;
      }
    }
  }
}
