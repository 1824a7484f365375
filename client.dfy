/**
 * FtpsClient: the client object whose methods update its connection fields
 * step by step, as the Go methods do.  Every method is proved to leave the
 * state, and to return, what its specification in FtpSession says; the
 * properties of those specifications are proved there.
 *
 * The server's answers, the outcome of each dial, of each Write and of each
 * Read call on the data connection, and the bytes a listing delivers are
 * handed in: they are what the network would decide.
 */
module Ftps {
  import opened FtpsErrors
  import opened GoText
  import opened DirListing
  import opened ReplyText
  import opened DataTransfer
  import opened FtpSession

  class FtpsClient {
    /** FtpsParam_X, copied in by NewFtpsClient and never changed. */
    const params: Params
    /** ctrlConnection_I */
    var ctrl: Handle
    /** dataConnection_I */
    var data: Handle
    /** the connection textProtocolPtr_X was made on */
    var proto: Option<Link>
    /** the answers the server still has to give */
    var replies: seq<Answer>
    /** the requests handed to textproto's Cmd */
    var sent: seq<string>
    /** the addresses dialed */
    var dials: seq<Endpoint>

    function State(): Session
      reads this
    {
      Session(ctrl, data, proto, replies, sent, dials)
    }

    /** NewFtpsClient: a client with no connection, talking to a server that will give `script`. */
    constructor(p: Params, script: seq<Answer>)
      ensures params == p
      ensures State() == Fresh(script)
    {
      params := p;
      ctrl := Nil;
      data := Nil;
      proto := None;
      replies := script;
      sent := [];
      dials := [];
    }

    /** isConnEstablished */
    method IsConnEstablished() returns (status: Outcome)
      ensures status == FtpSession.IsConnEstablished(State())
    {
      status := Fail(NotConnected);
      if ctrl.Live? {
        status := Pass;
      }
    }

    /** SetDeadline on the control connection: refused once it is closed. */
    method SetCtrlDeadline() returns (status: Outcome)
      requires ctrl.Live?
      ensures status == if ctrl.closed then Fail(ClosedConn) else Pass
    {
      status := Pass;
      if ctrl.closed {
        status := Fail(ClosedConn);
      }
    }

    /** readFtpServerResponse */
    method ReadFtpServerResponse(expected: int) returns (code: int, message: string, status: Outcome)
      modifies this
      ensures ReadReply(old(State()), expected) == Exchanged(State(), code, message, status)
    {
      code := 0;
      message := "";
      status := IsConnEstablished();
      if status == Pass {
        status := SetCtrlDeadline();
        if status == Pass {
          var answer := Head(replies);
          replies := Tail(replies);
          match answer
          case NoReply =>
            status := Fail(Transport);
          case Reply(c, text) =>
            code := c;
            message := text;
            if c != expected {
              status := Fail(UnexpectedCode(c, text));
            }
        }
      }
    }

    /** sendRequestToFtpServer */
    method SendRequestToFtpServer(request: string, expected: int) returns (code: int, message: string, status: Outcome)
      modifies this
      ensures SendRequest(old(State()), request, expected) == Exchanged(State(), code, message, status)
    {
      code := 0;
      message := "";
      status := IsConnEstablished();
      if status == Pass {
        status := SetCtrlDeadline();
        if status == Pass {
          sent := sent + [request];
          code, message, status := ReadFtpServerResponse(expected);
        }
      }
    }

    /** upgradeConnectionToTLS of the control connection, and a new text protocol on it. */
    method UpgradeCtrl()
      modifies this
      ensures State() == old(State()).(ctrl := Upgrade(old(ctrl)), proto := Some(Tls))
    {
      ctrl := Upgrade(ctrl);
      proto := Some(Tls);
    }

    /** Connect */
    method Connect(dialOk: bool) returns (status: Outcome)
      modifies this
      ensures ConnectSpec(old(State()), params, dialOk) == Step(State(), status)
    {
      ghost var goal := ConnectSpec(State(), params, dialOk);
      status := Fail(NotConnected);
      dials := dials + [Endpoint(params.host, params.port)];
      if !dialOk {
        ctrl := Nil;
        return;
      }
      ctrl := Live(Plain, false);
      // setConBufferSize always returns nil
      var sts;
      proto := Some(Plain);
      // `todo` holds the stages still to run; each step below is the next one.
      ghost var todo := Stages(params);
      if params.secure { StagesSecure(params); } else { StagesPlain(params); }
      assert goal == RunStages(State(), todo);
      var code, message;
      code, message, sts := ReadFtpServerResponse(220);
      assert goal == if sts.Fail? then Step(State(), Fail(todo[0].failure)) else RunStages(State(), todo[1..]);
      todo := todo[1..];
      if sts == Pass && params.secure {
        status := Fail(Secure);
        ghost var before := State();
        code, message, sts := SendRequestToFtpServer("AUTH TLS", 234);
        if sts == Pass {
          UpgradeCtrl();
        }
        assert RunStage(before, todo[0]) == Exchanged(State(), code, message, sts);
        assert goal == if sts.Fail? then Step(State(), Fail(todo[0].failure)) else RunStages(State(), todo[1..]);
        todo := todo[1..];
      }
      if sts == Pass {
        assert todo == LoginStages(params);
        status, sts := Login();
      }
      if sts == Pass {
        status := Pass;
      }
    }

    /**
     * The rest of Connect once the greeting (and AUTH TLS) passed: USER, PASS,
     * TYPE I, CWD and, in secure mode, PBSZ 0 and PROT P, each sent only when
     * the one before passed.  `status` is what rRts holds when `sts` fails.
     */
    method Login() returns (status: Outcome, sts: Outcome)
      modifies this
      ensures RunStages(old(State()), LoginStages(params)) == Step(State(), if sts == Pass then Pass else status)
    {
      ghost var goal := RunStages(State(), LoginStages(params));
      ghost var todo := LoginStages(params);
      var code, message;
      status := Fail(InvalidLogin);
      code, message, sts := SendRequestToFtpServer("USER " + params.loginName, 331);
      assert goal == if sts.Fail? then Step(State(), Fail(todo[0].failure)) else RunStages(State(), todo[1..]);
      todo := todo[1..];
      if sts == Pass {
        code, message, sts := SendRequestToFtpServer("PASS " + params.password, 230);
        assert goal == if sts.Fail? then Step(State(), Fail(todo[0].failure)) else RunStages(State(), todo[1..]);
        todo := todo[1..];
        if sts == Pass {
          status := Fail(InvalidParameter);
          code, message, sts := SendRequestToFtpServer("TYPE I", 200);
          assert goal == if sts.Fail? then Step(State(), Fail(todo[0].failure)) else RunStages(State(), todo[1..]);
          todo := todo[1..];
          if sts == Pass {
            status := Fail(InvalidDirectory);
            code, message, sts := SendRequestToFtpServer("CWD " + params.initialDirectory, 250);
            assert goal == if sts.Fail? then Step(State(), Fail(todo[0].failure)) else RunStages(State(), todo[1..]);
            todo := todo[1..];
            if sts == Pass && params.secure {
              status := Fail(Secure);
              code, message, sts := SendRequestToFtpServer("PBSZ 0", 200);
              assert goal == if sts.Fail? then Step(State(), Fail(todo[0].failure)) else RunStages(State(), todo[1..]);
              todo := todo[1..];
              if sts == Pass {
                code, message, sts := SendRequestToFtpServer("PROT P", 200);
                assert goal == if sts.Fail? then Step(State(), Fail(todo[0].failure)) else RunStages(State(), todo[1..]);
                todo := todo[1..];
              }
            }
          }
        }
      }
    }

    /** GetWorkingDirectory */
    method GetWorkingDirectory() returns (dir: string, status: Outcome)
      modifies this
      ensures WorkingDirectorySpec(old(State())) == Answered(State(), dir, status)
    {
      var code;
      code, dir, status := SendRequestToFtpServer("PWD", 257);
      if status == Pass {
        match QuotedDirectory(dir)
        case Err(e) =>
          status := Fail(e);
        case Ok(quoted) =>
          dir := quoted;
      }
    }

    /** preparePasvConnection */
    method PreparePasvConnection() returns (port: int, status: Outcome)
      modifies this
      ensures PasvSpec(old(State())) == Passive(State(), port, status)
    {
      port := 0;
      var code, message;
      code, message, status := SendRequestToFtpServer("PASV", 227);
      if status == Pass {
        match PasvPort(message)
        case Err(e) =>
          status := Fail(e);
        case Ok(p) =>
          port := p;
      }
    }

    /** openDataConn: the dial always goes to the control host, and fails on a port out of range. */
    method OpenDataConn(port: int, dialOk: bool) returns (status: Outcome)
      modifies this
      ensures OpenDataSpec(old(State()), params.host, port, dialOk) == Step(State(), status)
    {
      status := Fail(NotConnected);
      dials := dials + [Endpoint(params.host, port)];
      if dialOk && 0 <= port < 65536 {
        data := Live(Plain, false);
        // setConBufferSize always returns nil
        status := Pass;
      } else {
        data := Nil;
      }
    }

    /** sendRequestToFtpServerDataConn */
    method SendRequestToFtpServerDataConn(request: string, expected: int, dialOk: bool) returns (status: Outcome)
      modifies this
      ensures DataConnSpec(old(State()), params, request, expected, dialOk) == Step(State(), status)
    {
      var port;
      port, status := PreparePasvConnection();
      if status == Pass {
        status := OpenDataConn(port, dialOk);
        if status == Pass {
          var code, message;
          code, message, status := SendRequestToFtpServer(request, expected);
          if status != Pass {
            data := Closed(data);
            data := Nil;
          } else if params.secure {
            data := Upgrade(data);
          }
        }
      }
    }

    /** StoreFile: `write` is what the one Write of `payload` on the data connection reports. */
    method StoreFile(path: string, payload: seq<byte>, dialOk: bool, write: Written) returns (status: Outcome)
      modifies this
      ensures StoreSpec(old(State()), params, path, payload, dialOk, write) == Step(State(), status)
    {
      status := SendRequestToFtpServerDataConn("STOR " + path, 150, dialOk);
      if status == Pass {
        status := write.status;
        if status == Pass {
          if |payload| != write.count {
            status := Fail(IoError);
          } else {
            var code, message;
            code, message, status := ReadFtpServerResponse(226);
          }
        }
        data := Closed(data);
      }
    }

    /** List: `listing` is what the data connection delivers before its read error. */
    method List(listing: string, dialOk: bool, year: int, parseTime: string -> Option<int>) returns (entries: seq<DirEntry>, status: Outcome)
      modifies this
      ensures ListSpec(old(State()), params, listing, dialOk, year, parseTime) == Listed(State(), entries, status)
    {
      entries := [];
      status := SendRequestToFtpServerDataConn("LIST -a", 150, dialOk);
      if status == Pass {
        entries, status := ReadEntries(listing, line => ParseEntryLine(line, year, parseTime));
        if status != Pass {
          return;
        }
        var code, message;
        code, message, status := ReadFtpServerResponse(226);
        data := Closed(data);
      }
    }

    /** ReadFtpDataChannel: `calls` are the results of the Read calls the deadline leaves time for. */
    method ReadFtpDataChannel(buffer: array<byte>, calls: seq<ReadResult>) returns (count: nat, status: Outcome)
      modifies buffer
      ensures ReadDataSpec(State(), old(buffer[..]), calls) == Filled(buffer[..], count, status)
    {
      count := 0;
      if data.Nil? {
        // SetDeadline on a nil interface
        status := Fail(Panic(NilDereference));
        return;
      }
      if data.closed {
        status := Fail(ClosedConn);
        return;
      }
      ghost var goal := Fill(buffer[..], 0, calls);
      var i := 0;
      while true
        invariant 0 <= i <= |calls| && count <= buffer.Length
        invariant Fill(buffer[..], count, calls[i..]) == goal
        decreases |calls| - i
      {
        if i == |calls| {
          // the deadline expires
          status := Fail(Transport);
          return;
        }
        var rd := calls[i];
        ghost var before := buffer[..];
        ghost var start := count;
        FillOneCall(before, count, calls[i..]);
        var got := Taken(rd, buffer.Length - count);
        ReadInto(buffer, count, got);
        i := i + 1;
        if rd.status == Pass {
          count := count + |got|;
          if count >= buffer.Length {
            status := Pass;
            return;
          }
        } else if rd.status != Fail(Eof) {
          status := rd.status;
          return;
        }
        FillGoesOn(before, start, calls[i - 1..], buffer[..], count);
        SuffixTail(calls, i - 1);
      }
    }

    /** CloseFtpDataChannel: `closing` is what Close on the open data connection reports. */
    method CloseFtpDataChannel(closing: Outcome) returns (code: int, message: string, status: Outcome)
      modifies this
      ensures CloseDataSpec(old(State()), closing) == Exchanged(State(), code, message, status)
    {
      message := "";
      code := 0;
      if data.Nil? {
        // Close on a nil interface
        status := Fail(Panic(NilDereference));
        return;
      }
      if data.closed {
        status := Fail(ClosedConn);
        return;
      }
      data := Closed(data);
      status := closing;
      if status == Pass {
        code, message, status := ReadFtpServerResponse(226);
      }
    }

    /** Disconnect: `closing` is what Close on the control connection reports. */
    method Disconnect(closing: Outcome) returns (status: Outcome)
      modifies this
      ensures DisconnectSpec(old(State()), closing) == Step(State(), status)
    {
      var code, message;
      code, message, status := SendRequestToFtpServer("QUIT", 221);
      if status == Pass {
        ctrl := Closed(ctrl);
        status := closing;
      }
    }
  }

  /**
   * The read loop of List: one line at a time, as ReadString('\n') hands them
   * back, each parsed by `parse` and appended.  A line that does not parse
   * crashes the client, inside the parser or at the nil entry it leaves.
   */
  method ReadEntries(listing: string, parse: string -> Result<DirEntry>) returns (entries: seq<DirEntry>, status: Outcome)
    ensures ParseEach(CompleteLines(listing), parse) == if status == Pass then Ok(entries) else Err(status.error)
    ensures status != Pass ==> status.Fail? && status.error.Panic? && entries == []
  {
    entries := [];
    var rest := listing;
    PrependNothing(ParseEach(CompleteLines(rest), parse));
    while true
      invariant ParseEach(CompleteLines(listing), parse) == Prepend(entries, ParseEach(CompleteLines(rest), parse))
      decreases |rest|
    {
      var nl := IndexOf(rest, '\n');
      if nl < 0 {
        PrependEnd(entries, rest, parse);
        status := Pass;
        return;
      }
      var line := rest[..nl + 1];
      ghost var lines := CompleteLines(rest);
      CompleteLinesFirst(rest);
      var parsed := parse(line);
      if parsed.Err? {
        // a panic inside parseEntryLine, or *DirEntryPtr_X on the nil entry
        PrependFails(entries, lines, parse);
        entries := [];
        status := Fail(Crash(parsed.error));
        return;
      }
      PrependLine(entries, lines, parse);
      rest := rest[nl + 1..];
      entries := entries + [parsed.value];
    }
  }

  lemma SuffixTail<T>(s: seq<T>, i: nat)
    requires i < |s|
    ensures s[i..][1..] == s[i + 1..]
  {
  }

  /** What one Read call does to the slice it is handed: its bytes land at `at`, in order. */
  method ReadInto(buffer: array<byte>, at: nat, got: seq<byte>)
    requires at + |got| <= buffer.Length
    modifies buffer
    ensures buffer[..] == WriteAt(old(buffer[..]), at, got)
  {
    forall k | 0 <= k < |got| {
      buffer[at + k] := got[k];
    }
    assert buffer[..] == WriteAt(old(buffer[..]), at, got);
  }
}
