/**
 * The read loop of ReadFtpDataChannel: Read calls on the data connection
 * fill a caller's buffer until it is full, an error other than io.EOF
 * arrives, or the connection's deadline expires.
 */
module DataTransfer {
  import opened FtpsErrors
  import opened GoText

  /**
   * What one Read call gives back: the bytes it writes into the room it is
   * handed (never more than that room) and its error; Fail(Eof) is io.EOF.
   */
  datatype ReadResult = ReadResult(bytes: seq<byte>, status: Outcome)

  /** The buffer after the loop, the count it reports and the error it returns. */
  datatype Filled = Filled(buffer: seq<byte>, count: nat, status: Outcome)

  /** The bytes one Read call writes when `room` bytes are left in the buffer. */
  function Taken(rd: ReadResult, room: nat): (r: seq<byte>)
    ensures |r| == Min(|rd.bytes|, room)
  {
    if |rd.bytes| <= room then rd.bytes else rd.bytes[..room]
  }

  /** `buf` with `data` written at position `at`. */
  function WriteAt(buf: seq<byte>, at: nat, data: seq<byte>): (r: seq<byte>)
    requires at + |data| <= |buf|
    ensures |r| == |buf|
  {
    buf[..at] + data + buf[at + |data|..]
  }

  /** WriteAt changes exactly the positions `data` is written to. */
  lemma WriteAtSlices(buf: seq<byte>, at: nat, data: seq<byte>)
    requires at + |data| <= |buf|
    ensures var r := WriteAt(buf, at, data);
      r[..at] == buf[..at] && r[at..at + |data|] == data && r[at + |data|..] == buf[at + |data|..]
  {
  }

  /**
   * The loop, from `count` bytes already read.  Every Read call writes its
   * bytes at the current count; only a call without error adds them to the
   * count, and it ends the loop once the buffer is full.  io.EOF is retried;
   * any other error ends the loop.  The Read calls are finite: when none is
   * left the deadline has expired, and a plain TCP connection then reports a
   * timeout error.
   */
  function Fill(buf: seq<byte>, count: nat, calls: seq<ReadResult>): (r: Filled)
    requires count <= |buf|
    ensures |r.buffer| == |buf|
    ensures count <= r.count <= |buf|
    ensures r.status == Pass ==> r.count == |buf|
    ensures r.status != Fail(Eof)
    decreases |calls|
  {
    if |calls| == 0 then Filled(buf, count, Fail(Transport))
    else
      var data := Taken(calls[0], |buf| - count);
      var next := WriteAt(buf, count, data);
      match calls[0].status
      case Pass =>
        if count + |data| >= |buf| then Filled(next, count + |data|, Pass)
        else Fill(next, count + |data|, calls[1..])
      case Fail(e) =>
        if e == Eof then Fill(next, count, calls[1..]) else Filled(next, count, Fail(e))
  }

  /** One turn of the loop: what its first Read call decides. */
  lemma FillOneCall(buf: seq<byte>, count: nat, calls: seq<ReadResult>)
    requires count <= |buf| && |calls| > 0
    ensures var data := Taken(calls[0], |buf| - count);
      var next := WriteAt(buf, count, data);
      && (calls[0].status == Pass && count + |data| < |buf| ==> Fill(buf, count, calls) == Fill(next, count + |data|, calls[1..]))
      && (calls[0].status == Pass && count + |data| >= |buf| ==> Fill(buf, count, calls) == Filled(next, count + |data|, Pass))
      && (calls[0].status == Fail(Eof) ==> Fill(buf, count, calls) == Fill(next, count, calls[1..]))
      && (calls[0].status.Fail? && calls[0].status != Fail(Eof) ==> Fill(buf, count, calls) == Filled(next, count, calls[0].status))
  {
  }

  /** A Read call after which the loop goes on: the rest of the loop decides the outcome. */
  lemma FillGoesOn(buf: seq<byte>, count: nat, calls: seq<ReadResult>, next: seq<byte>, counted: nat)
    requires count <= |buf| && |calls| > 0
    requires next == WriteAt(buf, count, Taken(calls[0], |buf| - count))
    requires || (calls[0].status == Pass && counted == count + |Taken(calls[0], |buf| - count)| && counted < |buf|)
             || (calls[0].status == Fail(Eof) && counted == count)
    ensures counted <= |next|
    ensures Fill(next, counted, calls[1..]) == Fill(buf, count, calls)
  {
  }

  /** The bytes counted before the loop are never overwritten. */
  lemma {:induction false} FillKeepsPrefix(buf: seq<byte>, count: nat, calls: seq<ReadResult>)
    requires count <= |buf|
    ensures Fill(buf, count, calls).buffer[..count] == buf[..count]
    decreases |calls|
  {
    if |calls| > 0 {
      var data := Taken(calls[0], |buf| - count);
      var next := WriteAt(buf, count, data);
      FillKeepsPrefix(next, if calls[0].status == Pass then count + |data| else count, calls[1..]);
      var r := Fill(buf, count, calls);
      if calls[0].status == Pass && count + |data| < |buf| {
        assert r.buffer[..count] == r.buffer[..count + |data|][..count];
      }
    }
  }

  /** All the bytes a sequence of Read calls delivers, in order. */
  function Stream(calls: seq<ReadResult>): seq<byte>
  {
    if |calls| == 0 then [] else calls[0].bytes + Stream(calls[1..])
  }

  lemma StreamCons(calls: seq<ReadResult>)
    requires |calls| > 0
    ensures Stream(calls) == calls[0].bytes + Stream(calls[1..])
  {
  }

  predicate AllPass(calls: seq<ReadResult>)
  {
    forall k :: 0 <= k < |calls| ==> calls[k].status == Pass
  }

  predicate AllEof(calls: seq<ReadResult>)
  {
    forall k :: 0 <= k < |calls| ==> calls[k].status == Fail(Eof)
  }

  /** One successful Read call that leaves room: the loop goes on with the bytes counted. */
  lemma FillPassStep(buf: seq<byte>, count: nat, calls: seq<ReadResult>)
    requires count <= |buf| && |calls| > 0 && calls[0].status == Pass
    requires count + |calls[0].bytes| < |buf|
    ensures Fill(buf, count, calls) == Fill(WriteAt(buf, count, calls[0].bytes), count + |calls[0].bytes|, calls[1..])
  {
  }

  /** One successful Read call that fills the rest of the buffer ends the loop. */
  lemma FillPassLast(buf: seq<byte>, count: nat, calls: seq<ReadResult>)
    requires count <= |buf| && |calls| > 0 && calls[0].status == Pass
    requires count + |calls[0].bytes| >= |buf|
    ensures var data := Taken(calls[0], |buf| - count);
      && data == calls[0].bytes[..|buf| - count]
      && Fill(buf, count, calls) == Filled(WriteAt(buf, count, data), |buf|, Pass)
  {
  }

  lemma PrefixOfAppend<T>(a: seq<T>, b: seq<T>, n: nat)
    requires n <= |a|
    ensures (a + b)[..n] == a[..n]
  {
  }

  lemma AllPassTail(calls: seq<ReadResult>)
    requires |calls| > 0 && AllPass(calls)
    ensures AllPass(calls[1..])
  {
    forall k | 0 <= k < |calls| - 1 ensures calls[1..][k].status == Pass {
      assert calls[1..][k] == calls[k + 1];
    }
  }

  /**
   * When every Read call succeeds, the count grows by the bytes delivered
   * until the buffer is full, and the loop reports success exactly when the
   * stream is long enough to fill it (otherwise the deadline expires).
   */
  lemma {:induction false} FillCountAllPass(buf: seq<byte>, count: nat, calls: seq<ReadResult>)
    requires count <= |buf| && AllPass(calls)
    ensures var r := Fill(buf, count, calls);
      && r.count == count + Min(|Stream(calls)|, |buf| - count)
      && (r.status == Pass <==> count + |Stream(calls)| >= |buf| && |calls| > 0)
      && (r.status != Pass ==> r.status == Fail(Transport))
    decreases |calls|
  {
    if |calls| > 0 {
      var data := calls[0].bytes;
      StreamCons(calls);
      if count + |data| < |buf| {
        FillPassStep(buf, count, calls);
        AllPassTail(calls);
        FillCountAllPass(WriteAt(buf, count, data), count + |data|, calls[1..]);
      }
    }
  }

  /** The bytes counted from `count` on are the first ones of `stream`. */
  predicate CountedFrom(f: Filled, count: nat, stream: seq<byte>)
  {
    count <= f.count <= |f.buffer| && f.count - count <= |stream| && f.buffer[count..f.count] == stream[..f.count - count]
  }

  /** When every Read call succeeds, the counted bytes are the stream's, in order, after the ones counted before. */
  lemma {:induction false} FillBytesAllPass(buf: seq<byte>, count: nat, calls: seq<ReadResult>)
    requires count <= |buf| && AllPass(calls)
    ensures CountedFrom(Fill(buf, count, calls), count, Stream(calls))
    decreases |calls|
  {
    if |calls| > 0 {
      var data := calls[0].bytes;
      if count + |data| < |buf| {
        AllPassTail(calls);
        FillBytesAllPass(WriteAt(buf, count, data), count + |data|, calls[1..]);
        FillBytesStep(buf, count, calls);
      } else {
        FillBytesLast(buf, count, calls);
      }
    }
  }

  lemma FillBytesStep(buf: seq<byte>, count: nat, calls: seq<ReadResult>)
    requires count <= |buf| && |calls| > 0 && calls[0].status == Pass
    requires count + |calls[0].bytes| < |buf|
    requires CountedFrom(Fill(WriteAt(buf, count, calls[0].bytes), count + |calls[0].bytes|, calls[1..]),
                         count + |calls[0].bytes|, Stream(calls[1..]))
    ensures CountedFrom(Fill(buf, count, calls), count, Stream(calls))
  {
    var data := calls[0].bytes;
    var rest := calls[1..];
    var next := WriteAt(buf, count, data);
    var r := Fill(next, count + |data|, rest);
    assert Fill(buf, count, calls) == r by {
      FillPassStep(buf, count, calls);
    }
    assert Stream(calls) == data + Stream(rest) by {
      StreamCons(calls);
    }
    assert CountedFrom(r, count, data + Stream(rest)) by {
      FillKeepsPrefix(next, count + |data|, rest);
      WriteAtSlices(buf, count, data);
      AppendedSlice(r.buffer, next, count, data, Stream(rest), r.count);
    }
  }

  lemma FillBytesLast(buf: seq<byte>, count: nat, calls: seq<ReadResult>)
    requires count <= |buf| && |calls| > 0 && calls[0].status == Pass
    requires count + |calls[0].bytes| >= |buf|
    ensures CountedFrom(Fill(buf, count, calls), count, Stream(calls))
  {
    var taken := Taken(calls[0], |buf| - count);
    StreamCons(calls);
    FillPassLast(buf, count, calls);
    WriteAtSlices(buf, count, taken);
    assert count + |taken| == |buf|;
    PrefixOfAppend(calls[0].bytes, Stream(calls[1..]), |buf| - count);
  }

  /** Bytes written at `at`, followed by bytes counted later, read back as one prefix of the whole stream. */
  lemma AppendedSlice<T>(later: seq<T>, earlier: seq<T>, at: nat, data: seq<T>, more: seq<T>, end: nat)
    requires at + |data| <= end <= |later| && at + |data| <= |earlier|
    requires later[..at + |data|] == earlier[..at + |data|]
    requires earlier[at..at + |data|] == data
    requires end - (at + |data|) <= |more| && later[at + |data|..end] == more[..end - (at + |data|)]
    ensures end - at <= |data + more| && later[at..end] == (data + more)[..end - at]
  {
    assert later[at..at + |data|] == earlier[at..at + |data|];
    assert later[at..end] == later[at..at + |data|] + later[at + |data|..end];
  }

  /** A connection that only ever answers io.EOF keeps the loop going until the Read calls run out. */
  lemma {:induction false} FillOnlyEof(buf: seq<byte>, count: nat, calls: seq<ReadResult>)
    requires count <= |buf| && AllEof(calls)
    ensures Fill(buf, count, calls).count == count
    ensures Fill(buf, count, calls).status == Fail(Transport)
    decreases |calls|
  {
    if |calls| > 0 {
      var rest := calls[1..];
      assert AllEof(rest) by {
        forall k | 0 <= k < |rest| ensures rest[k].status == Fail(Eof) {
          assert rest[k] == calls[k + 1];
        }
      }
      FillOnlyEof(WriteAt(buf, count, Taken(calls[0], |buf| - count)), count, rest);
    }
  }

  /** An error other than io.EOF ends the loop at once, with the count where it was. */
  lemma FillStopsAtError(buf: seq<byte>, count: nat, calls: seq<ReadResult>)
    requires count <= |buf| && |calls| > 0
    requires calls[0].status.Fail? && calls[0].status != Fail(Eof)
    ensures Fill(buf, count, calls).count == count
    ensures Fill(buf, count, calls).status == calls[0].status
  {
  }
}
