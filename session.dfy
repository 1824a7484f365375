/**
 * The client's session as a value: its control and data connections, the
 * text protocol bound to the control connection, and the server as a script
 * of answers.  Every operation of FtpsClient that changes the session is
 * specified here as a function from the session before to the session after
 * and what the operation returns; the lemmas state what the code promises
 * about those functions.
 */
module FtpSession {
  import opened FtpsErrors
  import opened GoText
  import opened DirListing
  import opened ReplyText
  import opened DataTransfer

  /** Whether a connection carries TLS: upgradeConnectionToTLS wraps it. */
  datatype Link = Plain | Tls

  /** A net.Conn field: nil, or a connection that may have been closed since. */
  datatype Handle = Nil | Live(link: Link, closed: bool)

  /**
   * What the server does for one exchange on the control connection: a
   * complete reply, as textproto decodes it, or a failure of the exchange
   * (the deadline cannot be set, the command cannot be written, the reply
   * times out or is garbled).
   */
  datatype Answer = Reply(code: int, text: string) | NoReply

  /** A host and port handed to net.DialTimeout. */
  datatype Endpoint = Endpoint(host: string, port: int)

  /** The FtpsClientParam fields the session depends on. */
  datatype Params = Params(loginName: string, password: string, initialDirectory: string,
                           secure: bool, host: string, port: int)

  /**
   * The FtpsClient fields: `ctrl` is ctrlConnection_I, `data` is
   * dataConnection_I, `proto` the connection textProtocolPtr_X was made on.
   * `replies` is what the server has still to answer, `sent` every request
   * handed to textproto's Cmd, and `dials` every address dialed, in order.
   */
  datatype Session = Session(ctrl: Handle, data: Handle, proto: Option<Link>,
                             replies: seq<Answer>, sent: seq<string>, dials: seq<Endpoint>)

  /** The session after an exchange, with the reply code, message and error it returns. */
  datatype Exchanged = Exchanged(after: Session, code: int, message: string, status: Outcome)

  /** The session after an operation, with the error it returns. */
  datatype Step = Step(after: Session, status: Outcome)

  /** The text protocol always talks over the current control connection. */
  predicate Coherent(s: Session)
  {
    s.ctrl.Live? ==> s.proto == Some(s.ctrl.link)
  }

  /** The session NewFtpsClient makes: no connection, nothing sent. */
  function Fresh(script: seq<Answer>): (r: Session)
    ensures Coherent(r)
  {
    Session(Nil, Nil, None, script, [], [])
  }

  /** isConnEstablished: only a nil control connection is refused. */
  function IsConnEstablished(s: Session): (r: Outcome)
    ensures r == Pass <==> s.ctrl.Live?
    ensures r != Pass ==> r == Fail(NotConnected)
  {
    if s.ctrl.Nil? then Fail(NotConnected) else Pass
  }

  /** The next answer of the script; an exhausted script is a server that stays silent. */
  function Head(replies: seq<Answer>): Answer
  {
    if |replies| == 0 then NoReply else replies[0]
  }

  function Tail(replies: seq<Answer>): seq<Answer>
  {
    if |replies| == 0 then [] else replies[1..]
  }

  predicate Accepts(a: Answer, expected: int)
  {
    a.Reply? && a.code == expected
  }

  /**
   * readFtpServerResponse.  A nil control connection is refused before
   * anything is read; on a closed one setting the deadline fails.  Otherwise
   * one answer is taken: a failed exchange gives code 0 and an empty message,
   * a reply with another code than the one expected comes back with the
   * textproto error that carries it.
   */
  function ReadReply(s: Session, expected: int): (r: Exchanged)
    ensures r.after.ctrl == s.ctrl && r.after.data == s.data && r.after.proto == s.proto
    ensures r.after.sent == s.sent && r.after.dials == s.dials
    ensures r.status == Pass ==> Open(s) && r.code == expected && r.after.replies == Tail(s.replies)
  {
    if s.ctrl.Nil? then Exchanged(s, 0, "", Fail(NotConnected))
    else if s.ctrl.closed then Exchanged(s, 0, "", Fail(ClosedConn))
    else
      var after := s.(replies := Tail(s.replies));
      match Head(s.replies)
      case NoReply => Exchanged(after, 0, "", Fail(Transport))
      case Reply(code, text) =>
        Exchanged(after, code, text, if code == expected then Pass else Fail(UnexpectedCode(code, text)))
  }

  /**
   * sendRequestToFtpServer: the same refusals, then the command is written
   * and its reply read.
   */
  function SendRequest(s: Session, request: string, expected: int): (r: Exchanged)
    ensures r.after.ctrl == s.ctrl && r.after.data == s.data && r.after.proto == s.proto && r.after.dials == s.dials
    ensures r.status == Pass ==> Open(s) && r.code == expected && r.after.sent == s.sent + [request]
  {
    if s.ctrl.Nil? then Exchanged(s, 0, "", Fail(NotConnected))
    else if s.ctrl.closed then Exchanged(s, 0, "", Fail(ClosedConn))
    else ReadReply(s.(sent := s.sent + [request]), expected)
  }

  /** An open control connection: the exchange is what the server's next answer says. */
  predicate Open(s: Session)
  {
    s.ctrl.Live? && !s.ctrl.closed
  }

  /**
   * An exchange succeeds exactly on an open control connection whose next
   * answer has the expected code; it then returns that code and the
   * answer's message.  It consumes one answer exactly when the connection is
   * open, sends one command when it is, and touches nothing else.
   */
  lemma SendRequestOutcome(s: Session, request: string, expected: int)
    ensures var r := SendRequest(s, request, expected);
      && (r.status == Pass <==> Open(s) && Accepts(Head(s.replies), expected))
      && (r.status == Pass ==> r.code == expected && r.message == Head(s.replies).text)
      && (Open(s) && Head(s.replies).Reply? && !Accepts(Head(s.replies), expected) ==>
            r.status == Fail(UnexpectedCode(Head(s.replies).code, Head(s.replies).text)))
      && r.after.replies == (if Open(s) then Tail(s.replies) else s.replies)
      && r.after.sent == (if Open(s) then s.sent + [request] else s.sent)
      && r.after.(replies := s.replies, sent := s.sent) == s
  {
  }

  /** The same for an exchange that only reads. */
  lemma ReadReplyOutcome(s: Session, expected: int)
    ensures var r := ReadReply(s, expected);
      && (r.status == Pass <==> Open(s) && Accepts(Head(s.replies), expected))
      && (r.status == Pass ==> r.code == expected && r.message == Head(s.replies).text)
      && r.after.replies == (if Open(s) then Tail(s.replies) else s.replies)
      && r.after.(replies := s.replies) == s
  {
  }

  /** An exchange touches only the script and the commands sent. */
  lemma ExchangeFrame(s: Session, request: string, expected: int)
    ensures var r := SendRequest(s, request, expected);
      && r.after.ctrl == s.ctrl && r.after.proto == s.proto && r.after.data == s.data && r.after.dials == s.dials
      && (r.status == Pass ==> Open(s) && r.after.sent == s.sent + [request] && r.after.replies == Tail(s.replies)
                               && Accepts(Head(s.replies), expected))
  {
    ReadFrame(s.(sent := s.sent + [request]), expected);
  }

  /** A read touches only the script. */
  lemma ReadFrame(s: Session, expected: int)
    ensures var r := ReadReply(s, expected);
      && r.after.ctrl == s.ctrl && r.after.proto == s.proto && r.after.data == s.data && r.after.dials == s.dials
      && r.after.sent == s.sent
      && (r.status == Pass ==> Open(s) && r.after.replies == Tail(s.replies) && Accepts(Head(s.replies), expected))
  {
  }

  /** Without a control connection nothing is sent, nothing is consumed, and the error is ErrNotConnected. */
  lemma NoConnectionNoTraffic(s: Session, request: string, expected: int)
    requires s.ctrl.Nil?
    ensures SendRequest(s, request, expected) == Exchanged(s, 0, "", Fail(NotConnected))
    ensures ReadReply(s, expected) == Exchanged(s, 0, "", Fail(NotConnected))
  {
  }

  // ---------------------------------------------------------------- Connect

  /**
   * One stage of Connect: the command it sends (none for the greeting), the
   * reply code it needs, the error Connect returns when it does not get it,
   * and whether the control connection is upgraded to TLS after it.
   */
  datatype Stage = Stage(command: Option<string>, expected: int, failure: Error, upgradesTls: bool)

  /** The stages of Connect, in order; the TLS ones only in secure mode. */
  function Stages(p: Params): (r: seq<Stage>)
    ensures |r| == if p.secure then 8 else 5
  {
    [Stage(None, 220, NotConnected, false)]
    + (if p.secure then [Stage(Some("AUTH TLS"), 234, Secure, true)] else [])
    + [Stage(Some("USER " + p.loginName), 331, InvalidLogin, false),
       Stage(Some("PASS " + p.password), 230, InvalidLogin, false),
       Stage(Some("TYPE I"), 200, InvalidParameter, false),
       Stage(Some("CWD " + p.initialDirectory), 250, InvalidDirectory, false)]
    + (if p.secure then [Stage(Some("PBSZ 0"), 200, Secure, false), Stage(Some("PROT P"), 200, Secure, false)] else [])
  }

  /** A handle upgraded to TLS. */
  function Upgrade(h: Handle): Handle
  {
    if h.Live? then Live(Tls, h.closed) else h
  }

  /** One stage: its exchange, then the TLS upgrade and a new text protocol when it asks for one and passed. */
  function RunStage(s: Session, st: Stage): (r: Exchanged)
  {
    var x := if st.command.None? then ReadReply(s, st.expected) else SendRequest(s, st.command.value, st.expected);
    if x.status == Pass && st.upgradesTls then x.(after := x.after.(ctrl := Upgrade(x.after.ctrl), proto := Some(Tls)))
    else x
  }

  /** The stages in order: the first one that fails stops the sequence with its error. */
  function RunStages(s: Session, stages: seq<Stage>): (r: Step)
    ensures r.after.data == s.data && r.after.dials == s.dials
    decreases |stages|
  {
    if |stages| == 0 then Step(s, Pass)
    else
      var x := RunStage(s, stages[0]);
      if x.status.Fail? then Step(x.after, Fail(stages[0].failure)) else RunStages(x.after, stages[1..])
  }

  /**
   * Connect.  The control address is dialed first; a failed dial leaves a nil
   * control connection and ErrNotConnected.  Otherwise the text protocol is
   * made on the new connection and the stages run.
   */
  function ConnectSpec(s: Session, p: Params, dialOk: bool): (r: Step)
    ensures r.after.dials == s.dials + [Endpoint(p.host, p.port)] && r.after.data == s.data
    ensures !dialOk ==> r.after.ctrl == Nil
  {
    var dialed := s.(dials := s.dials + [Endpoint(p.host, p.port)]);
    if !dialOk then Step(dialed.(ctrl := Nil), Fail(NotConnected))
    else RunStages(dialed.(ctrl := Live(Plain, false), proto := Some(Plain)), Stages(p))
  }

  /** How many stages in a row, from the first, get the code they need from the script. */
  function Accepted(replies: seq<Answer>, stages: seq<Stage>): (k: nat)
    ensures k <= |stages|
    decreases |stages|
  {
    if |stages| == 0 || !Accepts(Head(replies), stages[0].expected) then 0
    else 1 + Accepted(Tail(replies), stages[1..])
  }

  /** The script after `n` answers are taken. */
  function Drop(replies: seq<Answer>, n: nat): seq<Answer>
  {
    if n <= |replies| then replies[n..] else []
  }

  /** The commands the stages send, in order. */
  function Commands(stages: seq<Stage>): seq<string>
    decreases |stages|
  {
    if |stages| == 0 then []
    else (if stages[0].command.Some? then [stages[0].command.value] else []) + Commands(stages[1..])
  }

  /** The link of the control connection after the stages, starting from `link`. */
  function LinkAfter(link: Link, stages: seq<Stage>): Link
    decreases |stages|
  {
    if |stages| == 0 then link else LinkAfter(if stages[0].upgradesTls then Tls else link, stages[1..])
  }

  /** The stages tried: the accepted ones, and the one that was refused if there is one. */
  function Tried(replies: seq<Answer>, stages: seq<Stage>): (n: nat)
    ensures n <= |stages|
  {
    var k := Accepted(replies, stages);
    if k < |stages| then k + 1 else k
  }

  /** One stage on an open control connection takes one answer and passes when it has the code needed. */
  lemma RunStageOpen(s: Session, st: Stage)
    requires Open(s)
    ensures var r := RunStage(s, st);
      && (r.status == Pass <==> Accepts(Head(s.replies), st.expected))
      && r.after.replies == Tail(s.replies)
      && r.after.sent == s.sent + (if st.command.Some? then [st.command.value] else [])
      && r.after.ctrl == Live(if r.status == Pass && st.upgradesTls then Tls else s.ctrl.link, false)
      && r.after.proto == (if r.status == Pass && st.upgradesTls then Some(Tls) else s.proto)
      && r.after.data == s.data && r.after.dials == s.dials
  {
  }

  /**
   * On an open control connection the stages stop at the first one the
   * script refuses, with that stage's error, or all pass; every stage tried
   * takes one answer.
   */
  lemma {:induction false} RunStagesStatus(s: Session, stages: seq<Stage>)
    requires Open(s)
    ensures var r := RunStages(s, stages);
      var k := Accepted(s.replies, stages);
      && (r.status == Pass <==> k == |stages|)
      && (k < |stages| ==> r.status == Fail(stages[k].failure))
      && r.after.replies == Drop(s.replies, Tried(s.replies, stages))
    decreases |stages|
  {
    if |stages| > 0 {
      var x := RunStage(s, stages[0]);
      RunStageOpen(s, stages[0]);
      if x.status == Pass {
        RunStagesStatus(x.after, stages[1..]);
        DropTail(s.replies, Tried(x.after.replies, stages[1..]));
      }
    }
  }

  lemma DropTail(replies: seq<Answer>, n: nat)
    ensures Drop(Tail(replies), n) == Drop(replies, n + 1)
  {
  }

  /** The stages tried send their commands, in order, and nothing else. */
  lemma {:induction false} RunStagesSent(s: Session, stages: seq<Stage>)
    requires Open(s)
    ensures RunStages(s, stages).after.sent == s.sent + Commands(stages[..Tried(s.replies, stages)])
    decreases |stages|
  {
    if |stages| > 0 {
      var x := RunStage(s, stages[0]);
      RunStageOpen(s, stages[0]);
      var first := if stages[0].command.Some? then [stages[0].command.value] else [];
      if x.status == Pass {
        var n := Tried(x.after.replies, stages[1..]);
        RunStagesSent(x.after, stages[1..]);
        TriedCons(s.replies, stages);
        CommandsCons(stages, n + 1);
        AppendAssoc3(s.sent, first, Commands(stages[1..][..n]));
      } else {
        assert stages[..1] == [stages[0]];
        assert Commands(stages[..1]) == first + Commands([]);
      }
    }
  }

  lemma AppendAssoc3<T>(a: seq<T>, b: seq<T>, c: seq<T>)
    ensures a + b + c == a + (b + c)
  {
  }

  lemma TriedCons(replies: seq<Answer>, stages: seq<Stage>)
    requires |stages| > 0 && Accepts(Head(replies), stages[0].expected)
    ensures Tried(replies, stages) == 1 + Tried(Tail(replies), stages[1..])
  {
  }

  lemma CommandsCons(stages: seq<Stage>, n: nat)
    requires 0 < n <= |stages|
    ensures Commands(stages[..n]) ==
      (if stages[0].command.Some? then [stages[0].command.value] else []) + Commands(stages[1..][..n - 1])
  {
    assert stages[..n][1..] == stages[1..][..n - 1];
  }

  /**
   * The stages leave the control connection open, upgraded by the accepted
   * ones, the text protocol on it, and the data connection and the dials untouched.
   */
  lemma {:induction false} RunStagesLink(s: Session, stages: seq<Stage>)
    requires Open(s) && Coherent(s)
    ensures var r := RunStages(s, stages);
      && r.after.ctrl == Live(LinkAfter(s.ctrl.link, stages[..Accepted(s.replies, stages)]), false)
      && Coherent(r.after)
      && r.after.data == s.data && r.after.dials == s.dials
    decreases |stages|
  {
    if |stages| > 0 {
      var x := RunStage(s, stages[0]);
      RunStageOpen(s, stages[0]);
      var k := Accepted(s.replies, stages);
      if x.status == Pass {
        RunStagesLink(x.after, stages[1..]);
        assert stages[..k][1..] == stages[1..][..k - 1];
      } else {
        assert stages[..k] == [];
      }
    }
  }

  /**
   * What Connect does.  The control address is always dialed.  A failed dial
   * leaves no control connection, sends nothing and gives ErrNotConnected.
   * Otherwise the outcome is decided by the first stage the script refuses,
   * whose error is returned, every stage tried sends its command, and the
   * control connection stays open with the text protocol on it.  The data
   * connection is not touched.
   */
  lemma ConnectOutcome(s: Session, p: Params, dialOk: bool)
    ensures var r := ConnectSpec(s, p, dialOk);
      var st := Stages(p);
      var k := Accepted(s.replies, st);
      && r.after.dials == s.dials + [Endpoint(p.host, p.port)]
      && r.after.data == s.data
      && Coherent(r.after)
      && (!dialOk ==> r.status == Fail(NotConnected) && r.after.ctrl == Nil
                      && r.after.sent == s.sent && r.after.replies == s.replies)
      && (dialOk ==>
            && (r.status == Pass <==> k == |st|)
            && (k < |st| ==> r.status == Fail(st[k].failure))
            && r.after.replies == Drop(s.replies, Tried(s.replies, st))
            && r.after.sent == s.sent + Commands(st[..Tried(s.replies, st)])
            && r.after.ctrl == Live(LinkAfter(Plain, st[..k]), false))
  {
    if dialOk {
      var start := s.(dials := s.dials + [Endpoint(p.host, p.port)], ctrl := Live(Plain, false), proto := Some(Plain));
      RunStagesStatus(start, Stages(p));
      RunStagesSent(start, Stages(p));
      RunStagesLink(start, Stages(p));
    }
  }

  /** The stages Connect runs once the greeting (and, in secure mode, AUTH TLS) passed. */
  function LoginStages(p: Params): seq<Stage>
  {
    [Stage(Some("USER " + p.loginName), 331, InvalidLogin, false),
     Stage(Some("PASS " + p.password), 230, InvalidLogin, false),
     Stage(Some("TYPE I"), 200, InvalidParameter, false),
     Stage(Some("CWD " + p.initialDirectory), 250, InvalidDirectory, false)]
    + (if p.secure then [Stage(Some("PBSZ 0"), 200, Secure, false), Stage(Some("PROT P"), 200, Secure, false)] else [])
  }

  /** The stages written out, in plain mode. */
  lemma StagesPlain(p: Params)
    requires !p.secure
    ensures Stages(p) == [Stage(None, 220, NotConnected, false),
                          Stage(Some("USER " + p.loginName), 331, InvalidLogin, false),
                          Stage(Some("PASS " + p.password), 230, InvalidLogin, false),
                          Stage(Some("TYPE I"), 200, InvalidParameter, false),
                          Stage(Some("CWD " + p.initialDirectory), 250, InvalidDirectory, false)]
  {
  }

  /** The stages written out, in secure mode. */
  lemma StagesSecure(p: Params)
    requires p.secure
    ensures Stages(p) == [Stage(None, 220, NotConnected, false),
                          Stage(Some("AUTH TLS"), 234, Secure, true),
                          Stage(Some("USER " + p.loginName), 331, InvalidLogin, false),
                          Stage(Some("PASS " + p.password), 230, InvalidLogin, false),
                          Stage(Some("TYPE I"), 200, InvalidParameter, false),
                          Stage(Some("CWD " + p.initialDirectory), 250, InvalidDirectory, false),
                          Stage(Some("PBSZ 0"), 200, Secure, false),
                          Stage(Some("PROT P"), 200, Secure, false)]
  {
  }

  /** The commands of a complete Connect, in order. */
  lemma ConnectCommands(p: Params)
    ensures Commands(Stages(p)) ==
      (if p.secure then ["AUTH TLS"] else [])
      + ["USER " + p.loginName, "PASS " + p.password, "TYPE I", "CWD " + p.initialDirectory]
      + (if p.secure then ["PBSZ 0", "PROT P"] else [])
  {
    if p.secure {
      ConnectCommandsSecure(p);
    } else {
      ConnectCommandsPlain(p);
    }
  }

  lemma ConnectCommandsPlain(p: Params)
    requires !p.secure
    ensures Commands(Stages(p)) == ["USER " + p.loginName, "PASS " + p.password, "TYPE I", "CWD " + p.initialDirectory]
  {
    StagesPlain(p);
    var st := Stages(p);
    var cwd := "CWD " + p.initialDirectory;
    assert Commands(st[4..]) == [cwd];
    assert Commands(st[3..]) == ["TYPE I", cwd];
    assert Commands(st[2..]) == ["PASS " + p.password, "TYPE I", cwd];
  }

  lemma ConnectCommandsSecure(p: Params)
    requires p.secure
    ensures Commands(Stages(p)) ==
      ["AUTH TLS", "USER " + p.loginName, "PASS " + p.password, "TYPE I", "CWD " + p.initialDirectory, "PBSZ 0", "PROT P"]
  {
    StagesSecure(p);
    var st := Stages(p);
    var cwd := "CWD " + p.initialDirectory;
    assert Commands(st[7..]) == ["PROT P"];
    assert Commands(st[6..]) == ["PBSZ 0", "PROT P"];
    assert Commands(st[5..]) == [cwd, "PBSZ 0", "PROT P"];
    assert Commands(st[4..]) == ["TYPE I", cwd, "PBSZ 0", "PROT P"];
    assert Commands(st[3..]) == ["PASS " + p.password, "TYPE I", cwd, "PBSZ 0", "PROT P"];
    assert Commands(st[2..]) == ["USER " + p.loginName, "PASS " + p.password, "TYPE I", cwd, "PBSZ 0", "PROT P"];
  }

  /** Stages that do not upgrade leave the link as it is. */
  lemma {:induction false} LinkAfterKeeps(link: Link, stages: seq<Stage>)
    requires forall k :: 0 <= k < |stages| ==> !stages[k].upgradesTls
    ensures LinkAfter(link, stages) == link
    decreases |stages|
  {
    if |stages| > 0 {
      var tail := stages[1..];
      assert forall k :: 0 <= k < |tail| ==> tail[k] == stages[k + 1];
      LinkAfterKeeps(link, tail);
    }
  }

  /** A complete Connect leaves a TLS control connection exactly in secure mode, with the text protocol on it. */
  lemma ConnectLink(s: Session, p: Params)
    requires ConnectSpec(s, p, true).status == Pass
    ensures ConnectSpec(s, p, true).after.ctrl == Live(if p.secure then Tls else Plain, false)
    ensures ConnectSpec(s, p, true).after.proto == Some(if p.secure then Tls else Plain)
  {
    ConnectOutcome(s, p, true);
    var st := Stages(p);
    assert st[..|st|] == st;
    if p.secure {
      StagesSecure(p);
      LinkAfterKeeps(Tls, st[2..]);
    } else {
      StagesPlain(p);
      LinkAfterKeeps(Plain, st[1..]);
    }
  }

  /** A server whose first answer is not the 220 greeting: ErrNotConnected, and no command is sent. */
  lemma ConnectNoGreeting(s: Session, p: Params)
    requires !Accepts(Head(s.replies), 220)
    ensures ConnectSpec(s, p, true).status == Fail(NotConnected)
    ensures ConnectSpec(s, p, true).after.sent == s.sent
  {
    ConnectOutcome(s, p, true);
    assert Stages(p)[..1] == [Stages(p)[0]];
  }

  /** In plain mode, a password the server refuses after USER was accepted: ErrInvalidLogin after USER and PASS. */
  lemma ConnectWrongPassword(s: Session, p: Params, greeting: string, userOk: string)
    requires !p.secure
    requires |s.replies| >= 3
    requires s.replies[0] == Reply(220, greeting) && s.replies[1] == Reply(331, userOk)
    requires !Accepts(s.replies[2], 230)
    ensures ConnectSpec(s, p, true).status == Fail(InvalidLogin)
    ensures ConnectSpec(s, p, true).after.sent == s.sent + ["USER " + p.loginName, "PASS " + p.password]
    ensures ConnectSpec(s, p, true).after.replies == s.replies[3..]
  {
    ConnectOutcome(s, p, true);
    StagesPlain(p);
    var st := Stages(p);
    var r1 := Tail(s.replies);
    var r2 := Tail(r1);
    assert r2 == s.replies[2..];
    assert Accepted(r2, st[2..]) == 0;
    assert Accepted(r1, st[1..]) == 1;
    assert Accepted(s.replies, st) == 2;
    var tried := st[..3];
    assert tried == [st[0], st[1], st[2]];
    assert Commands(tried[2..]) == ["PASS " + p.password];
    assert Commands(tried[1..]) == ["USER " + p.loginName, "PASS " + p.password];
  }

  // ------------------------------------------------ working directory, PASV

  /** The session after an exchange with the text an operation returns. */
  datatype Answered = Answered(after: Session, text: string, status: Outcome)

  /**
   * GetWorkingDirectory: PWD, which needs 257; the directory is the text
   * between the first and the last double quote of the message.  On any error
   * the message itself is returned with it.
   */
  function WorkingDirectorySpec(s: Session): (r: Answered)
    ensures r.after == SendRequest(s, "PWD", 257).after
    ensures r.status == Pass ==> Open(s) && Accepts(Head(s.replies), 257) && |r.text| + 2 <= |Head(s.replies).text|
  {
    var x := SendRequest(s, "PWD", 257);
    if x.status.Fail? then Answered(x.after, x.message, x.status)
    else
      match QuotedDirectory(x.message)
      case Ok(dir) => Answered(x.after, dir, Pass)
      case Err(e) => Answered(x.after, x.message, Fail(e))
  }

  /**
   * A 257 reply that quotes a directory gives that directory; a 257 reply
   * with fewer than two double quotes gives ErrLineFormat.
   */
  lemma WorkingDirectoryOutcome(s: Session)
    requires Open(s)
    ensures var r := WorkingDirectorySpec(s);
      && r.after == s.(sent := s.sent + ["PWD"], replies := Tail(s.replies))
      && (r.status == Pass <==> Accepts(Head(s.replies), 257) && Count(Head(s.replies).text, '"') >= 2)
      && (Accepts(Head(s.replies), 257) && Count(Head(s.replies).text, '"') < 2 ==>
            r == Answered(r.after, Head(s.replies).text, Fail(LineFormat)))
  {
    if Accepts(Head(s.replies), 257) {
      QuotedDirectoryFormat(Head(s.replies).text);
    }
  }

  lemma WorkingDirectoryOfQuote(s: Session, pre: string, dir: string, post: string)
    requires Open(s) && '"' !in pre && '"' !in post
    requires Head(s.replies) == Reply(257, pre + "\"" + dir + "\"" + post)
    ensures WorkingDirectorySpec(s) == Answered(s.(sent := s.sent + ["PWD"], replies := Tail(s.replies)), dir, Pass)
  {
    QuotedDirectoryOfQuote(pre, dir, post);
  }

  /** The session after PASV, with the port the reply announces (0 on error). */
  datatype Passive = Passive(after: Session, port: int, status: Outcome)

  /** preparePasvConnection: PASV, which needs 227, and the port in its message. */
  function PasvSpec(s: Session): (r: Passive)
    ensures r.after == SendRequest(s, "PASV", 227).after
    ensures r.status.Fail? ==> r.port == 0
    ensures -Two63 <= r.port < Two63
  {
    var x := SendRequest(s, "PASV", 227);
    if x.status.Fail? then Passive(x.after, 0, x.status)
    else
      match PasvPort(x.message)
      case Ok(port) => Passive(x.after, port, Pass)
      case Err(e) => Passive(x.after, 0, Fail(e))
  }

  /** A 227 reply with the RFC 959 tuple announces port p1 * 256 + p2; the four host numbers play no part. */
  lemma PasvOfTuple(s: Session, pre: string, hosts: seq<string>, p1: nat, p2: nat, post: string)
    requires Open(s) && '(' !in pre && ')' !in post
    requires |hosts| == 4 && forall k :: 0 <= k < 4 ==> ',' !in hosts[k]
    requires p1 < 256 && p2 < 256
    requires Head(s.replies) == Reply(227, pre + "(" + Join(hosts + [Decimal(p1), Decimal(p2)], ',') + ")" + post)
    ensures PasvSpec(s) == Passive(s.(sent := s.sent + ["PASV"], replies := Tail(s.replies)), p1 * 256 + p2, Pass)
  {
    PasvPortOfTuple(pre, hosts, p1, p2, post);
  }

  /** PASV touches only the script and the commands sent; a successful one sent PASV and took one answer. */
  lemma PasvFrame(s: Session)
    ensures var r := PasvSpec(s);
      && r.after.ctrl == s.ctrl && r.after.proto == s.proto && r.after.data == s.data && r.after.dials == s.dials
      && (r.status == Pass ==> Open(s) && r.after.sent == s.sent + ["PASV"] && r.after.replies == Tail(s.replies))
      && (r.status.Fail? ==> r.port == 0)
  {
    ExchangeFrame(s, "PASV", 227);
  }

  // ------------------------------------------------------------ data channel

  /**
   * openDataConn: the data address is always the control host; a failed dial
   * leaves a nil data connection.  net.DialTimeout refuses a port outside
   * 0..65535 before it connects, and `dialOk` says whether a dial to a valid
   * port connects.  setConBufferSize, called after a good dial, always
   * returns nil.
   */
  function OpenDataSpec(s: Session, host: string, port: int, dialOk: bool): (r: Step)
    ensures r.after == s.(dials := s.dials + [Endpoint(host, port)], data := r.after.data)
    ensures r.status == Pass <==> dialOk && ValidPort(port)
    ensures r.after.data == if r.status == Pass then Live(Plain, false) else Nil
    ensures r.status.Fail? ==> r.status == Fail(NotConnected)
  {
    var dialed := s.(dials := s.dials + [Endpoint(host, port)]);
    if !dialOk || !ValidPort(port) then Step(dialed.(data := Nil), Fail(NotConnected))
    else Step(dialed.(data := Live(Plain, false)), Pass)
  }

  /** A TCP port number net.DialTimeout accepts. */
  predicate ValidPort(port: int)
  {
    0 <= port < 65536
  }

  /**
   * sendRequestToFtpServerDataConn: PASV, the dial to the port it announces,
   * then the command on the control connection.  A refused command closes the
   * data connection and sets it to nil; an accepted one upgrades it to TLS in
   * secure mode.
   */
  function DataConnSpec(s: Session, p: Params, request: string, expected: int, dialOk: bool): (r: Step)
    ensures r.after.ctrl == s.ctrl && r.after.proto == s.proto
    ensures r.status == Pass ==> Open(s) && r.after.data == Live(if p.secure then Tls else Plain, false)
  {
    var pasv := PasvSpec(s);
    if pasv.status.Fail? then Step(pasv.after, pasv.status)
    else
      var conn := OpenDataSpec(pasv.after, p.host, pasv.port, dialOk);
      if conn.status.Fail? then conn
      else
        var x := SendRequest(conn.after, request, expected);
        if x.status.Fail? then Step(x.after.(data := Nil), x.status)
        else Step(x.after.(data := if p.secure then Upgrade(x.after.data) else x.after.data), Pass)
  }

  /**
   * What opening a data channel does.  The control connection and the text
   * protocol are not touched.  A failed PASV leaves the data connection as it
   * was and dials nothing; after it, the one dial goes to the control host at
   * the announced port.  The data connection ends open (with TLS in secure
   * mode) exactly on success, and nil on any failure after PASV.
   */
  lemma DataConnOutcome(s: Session, p: Params, request: string, expected: int, dialOk: bool)
    ensures var r := DataConnSpec(s, p, request, expected, dialOk);
      var pasv := PasvSpec(s);
      && r.after.ctrl == s.ctrl && r.after.proto == s.proto
      && (pasv.status.Fail? ==> r == Step(pasv.after, pasv.status) && r.after.data == s.data && r.after.dials == s.dials)
      && (pasv.status == Pass ==>
            && r.after.dials == s.dials + [Endpoint(p.host, pasv.port)]
            && (r.status == Pass <==> dialOk && ValidPort(pasv.port) && Accepts(Head(pasv.after.replies), expected))
            && (r.status == Pass ==> r.after.data == Live(if p.secure then Tls else Plain, false)
                                     && r.after.sent == s.sent + ["PASV", request])
            && (r.status.Fail? ==> r.after.data == Nil))
  {
    var pasv := PasvSpec(s);
    PasvFrame(s);
    if pasv.status == Pass && dialOk && ValidPort(pasv.port) {
      var conn := OpenDataSpec(pasv.after, p.host, pasv.port, dialOk);
      ExchangeFrame(conn.after, request, expected);
    }
  }

  /** A data channel that opened is open, with TLS in secure mode, and the control connection is as it was. */
  lemma DataConnOpened(s: Session, p: Params, request: string, expected: int, dialOk: bool)
    ensures var r := DataConnSpec(s, p, request, expected, dialOk);
      && r.after.ctrl == s.ctrl && r.after.proto == s.proto
      && (r.status == Pass ==> Open(s) && r.after.data == Live(if p.secure then Tls else Plain, false))
  {
    var pasv := PasvSpec(s);
    PasvFrame(s);
    if pasv.status == Pass && dialOk {
      var conn := OpenDataSpec(pasv.after, p.host, pasv.port, dialOk);
      ExchangeFrame(conn.after, request, expected);
    }
  }

  /**
   * The reply "227 Entering Passive Mode (10,0,0,1,19,136)." sends the data
   * dial to the control host at port 5000, whatever address the tuple names.
   */
  lemma DataConnExample(s: Session, p: Params, request: string, expected: int, dialOk: bool, tuple: string)
    requires Open(s) && tuple == "(10,0,0,1,19,136)"
    requires Head(s.replies) == Reply(227, "Entering Passive Mode " + tuple + ".")
    ensures PasvSpec(s).port == 5000 && PasvSpec(s).status == Pass
    ensures DataConnSpec(s, p, request, expected, dialOk).after.dials == s.dials + [Endpoint(p.host, 5000)]
  {
    assert '(' !in "Entering Passive Mode ";
    PasvExample("Entering Passive Mode ", tuple, ".");
    DataConnOutcome(s, p, request, expected, dialOk);
  }

  /** Without a control connection, opening a data channel sends nothing, dials nothing and gives ErrNotConnected. */
  lemma DataConnWithoutControl(s: Session, p: Params, request: string, expected: int, dialOk: bool)
    requires s.ctrl.Nil?
    ensures DataConnSpec(s, p, request, expected, dialOk) == Step(s, Fail(NotConnected))
  {
  }

  /** A connection after Close. */
  function Closed(h: Handle): Handle
  {
    if h.Live? then h.(closed := true) else h
  }

  /** A Close of the data connection. */
  function CloseData(s: Session): Session
  {
    s.(data := Closed(s.data))
  }

  /** What one Write call on the data connection reports. */
  datatype Written = Written(count: nat, status: Outcome)

  /**
   * StoreFile: STOR on a new data channel, which needs 150; then one Write of
   * the payload.  A write error is returned as is, a short write is
   * ErrIoError without reading the 226, and otherwise the 226 is read.  The
   * data connection is closed afterwards, whatever happened.
   */
  function StoreSpec(s: Session, p: Params, path: string, payload: seq<byte>, dialOk: bool, write: Written): (r: Step)
    ensures r.after.ctrl == s.ctrl && r.after.proto == s.proto
    ensures r.status == Pass ==> write == Written(|payload|, Pass) && r.after.data.Live? && r.after.data.closed
  {
    var dc := DataConnSpec(s, p, "STOR " + path, 150, dialOk);
    if dc.status.Fail? then dc
    else if write.status.Fail? then Step(CloseData(dc.after), write.status)
    else if write.count != |payload| then Step(CloseData(dc.after), Fail(IoError))
    else
      var x := ReadReply(dc.after, 226);
      Step(CloseData(x.after), x.status)
  }

  /**
   * After the data channel is open, StoreFile always ends with that data
   * connection closed; a failed write or a short one reads no reply; a
   * complete write reads exactly the 226.
   */
  lemma StoreOutcome(s: Session, p: Params, path: string, payload: seq<byte>, dialOk: bool, write: Written)
    ensures var r := StoreSpec(s, p, path, payload, dialOk, write);
      var dc := DataConnSpec(s, p, "STOR " + path, 150, dialOk);
      && (dc.status.Fail? ==> r == dc)
      && (dc.status == Pass ==>
            && r.after.data == Live(if p.secure then Tls else Plain, true)
            && (write.status.Fail? ==> r.status == write.status && r.after.replies == dc.after.replies)
            && (write.status == Pass && write.count != |payload| ==>
                  r.status == Fail(IoError) && r.after.replies == dc.after.replies && r.after.sent == dc.after.sent)
            && (write.status == Pass && write.count == |payload| ==>
                  (r.status == Pass <==> Accepts(Head(dc.after.replies), 226))
                  && r.after.replies == Tail(dc.after.replies)))
  {
    DataConnOpened(s, p, "STOR " + path, 150, dialOk);
  }

  /**
   * CloseFtpDataChannel: Close on a nil data connection is a method call on a
   * nil interface; on a closed one it fails.  Otherwise `closing` is what
   * Close reports: the connection is closed either way, and only when Close
   * succeeded is the 226 read.
   */
  function CloseDataSpec(s: Session, closing: Outcome): (r: Exchanged)
    ensures r.after.ctrl == s.ctrl && r.after.proto == s.proto && r.after.sent == s.sent && r.after.dials == s.dials
    ensures r.status == Pass ==> closing == Pass && s.data.Live? && !s.data.closed && r.after.data == s.data.(closed := true)
  {
    if s.data.Nil? then Exchanged(s, 0, "", Fail(Panic(NilDereference)))
    else if s.data.closed then Exchanged(s, 0, "", Fail(ClosedConn))
    else if closing.Fail? then Exchanged(CloseData(s), 0, "", closing)
    else ReadReply(CloseData(s), 226)
  }

  /**
   * Closing an open data channel closes it, whatever Close reports.  A Close
   * error is returned without reading a reply; otherwise the 226 decides.
   * Closing it a second time fails without reading.
   */
  lemma CloseDataTwice(s: Session, closing: Outcome, again: Outcome)
    requires s.data.Live? && !s.data.closed
    ensures var r := CloseDataSpec(s, closing);
      && r.after.data == s.data.(closed := true)
      && (closing.Fail? ==> r.status == closing && r.after.replies == s.replies)
      && (r.status == Pass <==> closing == Pass && Open(s) && Accepts(Head(s.replies), 226))
      && (closing == Pass ==> r.after.replies == (if Open(s) then Tail(s.replies) else s.replies))
      && CloseDataSpec(r.after, again) == Exchanged(r.after, 0, "", Fail(ClosedConn))
  {
  }

  /**
   * Disconnect: QUIT, which needs 221, then the control connection is closed
   * and what Close reports, `closing`, is returned.
   */
  function DisconnectSpec(s: Session, closing: Outcome): (r: Step)
    ensures r.after.data == s.data && r.after.proto == s.proto && r.after.dials == s.dials
    ensures r.status == Pass ==> Open(s) && closing == Pass && r.after.ctrl == s.ctrl.(closed := true)
  {
    var x := SendRequest(s, "QUIT", 221);
    if x.status.Fail? then Step(x.after, x.status)
    else Step(x.after.(ctrl := Closed(x.after.ctrl)), closing)
  }

  /**
   * A refused QUIT leaves the control connection open and returns the
   * exchange's error.  An accepted one closes the control connection and
   * returns what Close reports; every later exchange, and a second
   * Disconnect, are then refused with nothing sent and nothing consumed.
   */
  lemma DisconnectCloses(s: Session, closing: Outcome, request: string, expected: int, again: Outcome)
    ensures var quit := SendRequest(s, "QUIT", 221);
      var r := DisconnectSpec(s, closing);
      && (quit.status.Fail? ==> r.status == quit.status && r.after.ctrl == s.ctrl)
      && (quit.status == Pass ==>
            && r.status == closing
            && r.after.ctrl == s.ctrl.(closed := true)
            && r.after.sent == s.sent + ["QUIT"]
            && SendRequest(r.after, request, expected) == Exchanged(r.after, 0, "", Fail(ClosedConn))
            && DisconnectSpec(r.after, again) == Step(r.after, Fail(ClosedConn)))
  {
  }

  /** The entries of a listing, the session after it and the error. */
  datatype Listed = Listed(after: Session, entries: seq<DirEntry>, status: Outcome)

  /**
   * List: LIST -a on a new data channel, which needs 150; every complete
   * line the data connection delivers is parsed, and the first line that
   * does not parse crashes the client (see DirListing.Crash).  Then the 226 is read, its error is what List
   * returns, and the data connection is closed.
   */
  function ListSpec(s: Session, p: Params, listing: string, dialOk: bool, year: int, parseTime: string -> Option<int>): (r: Listed)
    ensures r.after.ctrl == s.ctrl && r.after.proto == s.proto
    ensures r.entries != [] ==> r.after.data.Live? && r.after.data.closed
  {
    var dc := DataConnSpec(s, p, "LIST -a", 150, dialOk);
    if dc.status.Fail? then Listed(dc.after, [], dc.status)
    else
      match ParseLines(CompleteLines(listing), year, parseTime)
      case Err(e) => Listed(dc.after, [], Fail(e))
      case Ok(entries) =>
        var x := ReadReply(dc.after, 226);
        Listed(CloseData(x.after), entries, x.status)
  }

  /**
   * Once the data channel is open, List gives one entry per complete line,
   * in order, and closes the data connection, unless a line does not parse.
   */
  lemma ListOutcome(s: Session, p: Params, listing: string, dialOk: bool, year: int, parseTime: string -> Option<int>)
    requires DataConnSpec(s, p, "LIST -a", 150, dialOk).status == Pass
    ensures var r := ListSpec(s, p, listing, dialOk, year, parseTime);
      var dc := DataConnSpec(s, p, "LIST -a", 150, dialOk);
      var lines := CompleteLines(listing);
      && ((forall k :: 0 <= k < |lines| ==> ParseEntryLine(lines[k], year, parseTime).Ok?) ==>
            && |r.entries| == |lines|
            && (forall k :: 0 <= k < |lines| ==> r.entries[k] == ParseEntryLine(lines[k], year, parseTime).value)
            && r.after.data.Live? && r.after.data.closed
            && (r.status == Pass <==> Accepts(Head(dc.after.replies), 226))
            && r.after.replies == Tail(dc.after.replies)
            && r.after.sent == dc.after.sent)
      && ((exists k :: 0 <= k < |lines| && ParseEntryLine(lines[k], year, parseTime).Err?) ==>
            r.status.Fail? && r.status.error.Panic? && r.entries == [])
  {
    ParseLinesEach(CompleteLines(listing), year, parseTime);
    DataConnOpened(s, p, "LIST -a", 150, dialOk);
  }

  /**
   * The first complete line that does not parse decides the crash: the
   * parser's own panic, or the nil dereference of the entry it leaves.
   * Nothing more is read from the control connection.
   */
  lemma ListFirstBadLine(s: Session, p: Params, listing: string, dialOk: bool, year: int, parseTime: string -> Option<int>, k: nat)
    requires DataConnSpec(s, p, "LIST -a", 150, dialOk).status == Pass
    requires k < |CompleteLines(listing)| && ParseEntryLine(CompleteLines(listing)[k], year, parseTime).Err?
    requires forall j :: 0 <= j < k ==> ParseEntryLine(CompleteLines(listing)[j], year, parseTime).Ok?
    ensures ListSpec(s, p, listing, dialOk, year, parseTime)
         == Listed(DataConnSpec(s, p, "LIST -a", 150, dialOk).after, [],
                   Fail(Crash(ParseEntryLine(CompleteLines(listing)[k], year, parseTime).error)))
  {
    ParseLinesFirstError(CompleteLines(listing), year, parseTime, k);
  }

  /**
   * A first line whose first field is empty, such as one that starts with a
   * space, panics at the type character inside parseEntryLine.
   */
  lemma ListWithEmptyFirstField(s: Session, p: Params, tail: string, rest: string, dialOk: bool, year: int, parseTime: string -> Option<int>)
    requires DataConnSpec(s, p, "LIST -a", 150, dialOk).status == Pass
    requires '\n' !in tail && Count(tail, ' ') >= 7
    ensures ListSpec(s, p, " " + tail + "\n" + rest, dialOk, year, parseTime).status == Fail(Panic(IndexOutOfRange))
  {
    var head := " " + tail;
    var line := head + "\n";
    var listing := head + "\n" + rest;
    assert '\n' !in head;
    IndexOfAppend(head, '\n', rest);
    assert listing[..|head| + 1] == line;
    CompleteLinesFirst(listing);
    CountAppend(" ", tail, ' ');
    CountAppend(head, "\n", ' ');
    assert Count(" ", ' ') == 1 && Count("\n", ' ') == 0;
    assert line[0] == ' ';
    assert IndexOf(line, ' ') == 0;
    SplitLength(line, ' ');
    assert Split(line, ' ')[0] == "";
    ParseEntryLineFields(line, year, parseTime);
    ListFirstBadLine(s, p, listing, dialOk, year, parseTime, 0);
  }

  /**
   * A first line with fewer than eight spaces, such as the "total 0" line
   * many servers send first, crashes the client.
   */
  lemma ListWithShortLine(s: Session, p: Params, line: string, rest: string, dialOk: bool, year: int, parseTime: string -> Option<int>)
    requires DataConnSpec(s, p, "LIST -a", 150, dialOk).status == Pass
    requires '\n' !in line && Count(line, ' ') < 8
    ensures ListSpec(s, p, line + "\n" + rest, dialOk, year, parseTime).status == Fail(Panic(NilDereference))
  {
    var listing := line + "\n" + rest;
    IndexOfAppend(line, '\n', rest);
    assert listing[..|line| + 1] == line + "\n";
    CountAppend(line, "\n", ' ');
    assert Count("\n", ' ') == 0;
    ParseEntryLineFormat(line + "\n", year, parseTime);
    ListOutcome(s, p, listing, dialOk, year, parseTime);
  }

  /**
   * ReadFtpDataChannel: the data deadline is set first, which panics on a
   * nil data connection and fails on a closed one; then the read loop runs.
   */
  function ReadDataSpec(s: Session, buf: seq<byte>, calls: seq<ReadResult>): (r: Filled)
    ensures |r.buffer| == |buf| && r.count <= |buf|
    ensures r.status == Pass ==> s.data.Live? && !s.data.closed && r.count == |buf|
  {
    if s.data.Nil? then Filled(buf, 0, Fail(Panic(NilDereference)))
    else if s.data.closed then Filled(buf, 0, Fail(ClosedConn))
    else Fill(buf, 0, calls)
  }

  /**
   * Only Connect and Disconnect change the control connection, and the text
   * protocol stays on it: every operation keeps the session coherent.
   */
  lemma ControlKept(s: Session, p: Params, closing: Outcome, request: string, expected: int, dialOk: bool)
    ensures Coherent(s) ==> Coherent(WorkingDirectorySpec(s).after) && Coherent(PasvSpec(s).after)
    ensures Coherent(s) ==> Coherent(DataConnSpec(s, p, request, expected, dialOk).after)
    ensures Coherent(s) ==> Coherent(CloseDataSpec(s, closing).after)
    ensures Coherent(s) ==> Coherent(DisconnectSpec(s, closing).after)
    ensures DisconnectSpec(s, closing).after.ctrl.Live? == s.ctrl.Live?
  {
  }
}
