/** Mailbox probing over SMTP (smtp.go): one handshake per mail server,
    the classification of the RCPT TO reply, and the fallback over the
    servers of a domain.  Sockets are replaced by a scripted `Network`. */
module Smtp {
  import opened Types
  import opened Strings
  import opened Net

  const SmtpPort := 25
  const HeloDomain := "my-validator-service.com"
  const FromEmail := "verify@my-validator-service.com"

  const HeloCommand := "HELO " + HeloDomain
  const MailFromCommand := "MAIL FROM:<" + FromEmail + ">"
  const QuitCommand := "QUIT"

  function RcptToCommand(email: string): string {
    "RCPT TO:<" + email + ">"
  }

  /** The four commands of a complete probe, in the order they are sent:
      command k goes out once reply k has been accepted. */
  function ProbeCommands(email: string): seq<string> {
    [HeloCommand, MailFromCommand, RcptToCommand(email), QuitCommand]
  }

  datatype SMTPResult = SMTPResult(status: Status, reason: string, code: int)

  /** A result that ends the fallback over servers. */
  predicate Definitive(r: SMTPResult) {
    r.status == Valid || r.status == Invalid
  }

  // ---------------------------------------------------------------------
  // The scripted network

  /** One line as bufio.Reader.ReadLine returns it (without its line
      ending), or a failed read: end of stream, a reset, or the session
      deadline having passed. */
  datatype Reply = ReadFailed | Line(text: string)

  /** How the server at one address behaves: whether dialing it succeeds,
      the lines it answers in order, and the outcome of each write in
      order.  Reading past the last line fails; so does writing past the
      last outcome. */
  datatype Session = Session(reachable: bool, replies: seq<Reply>, writes: seq<bool>)

  function ReplyAt(s: Session, i: nat): Reply {
    if i < |s.replies| then s.replies[i] else ReadFailed
  }

  predicate WriteSucceeds(s: Session, i: nat) {
    i < |s.writes| && s.writes[i]
  }

  /** A server the network does not know cannot be dialed. */
  function SessionAt(sessions: map<string, Session>, address: string): Session {
    if address in sessions then sessions[address] else Session(false, [], [])
  }

  /** net.JoinHostPort: IPv6 literals are bracketed. */
  function JoinHostPort(host: string, port: string): string {
    if ':' in host then "[" + host + "]:" + port else host + ":" + port
  }

  function ServerAddress(host: string): string {
    JoinHostPort(host, IntToString(SmtpPort))
  }

  /** Each command goes on the wire followed by CRLF. */
  function Frames(commands: seq<string>): (frames: seq<string>)
    ensures |frames| == |commands|
    ensures forall i :: 0 <= i < |commands| ==> frames[i] == commands[i] + "\r\n"
  {
    seq(|commands|, i requires 0 <= i < |commands| => commands[i] + "\r\n")
  }

  /** The network as the probe sees it: which addresses were dialed and
      every frame written, across all connections, in order. */
  class Network {
    const sessions: map<string, Session>
    var dialed: seq<string>
    var sent: seq<string>

    constructor (sessions: map<string, Session>)
      ensures this.sessions == sessions && dialed == [] && sent == []
    {
      this.sessions := sessions;
      dialed := [];
      sent := [];
    }

    /** net.DialTimeout: a fresh connection, or null when the dial fails. */
    method DialTimeout(address: string) returns (c: Conn?)
      modifies this`dialed
      ensures dialed == old(dialed) + [address]
      ensures (c != null) == SessionAt(sessions, address).reachable
      ensures c != null ==> fresh(c) && c.net == this && c.session == SessionAt(sessions, address)
      ensures c != null ==> c.readCount == 0 && c.writeCount == 0
    {
      dialed := dialed + [address];
      if SessionAt(sessions, address).reachable {
        c := new Conn(this, SessionAt(sessions, address));
      } else {
        c := null;
      }
    }
  }

  /** One TCP connection with its buffered reader. */
  class Conn {
    const net: Network
    const session: Session
    var readCount: nat
    var writeCount: nat

    constructor (net: Network, session: Session)
      ensures this.net == net && this.session == session && readCount == 0 && writeCount == 0
    {
      this.net := net;
      this.session := session;
      readCount := 0;
      writeCount := 0;
    }

    method ReadLine() returns (r: Reply)
      modifies this`readCount
      ensures r == ReplyAt(session, old(readCount)) && readCount == old(readCount) + 1
    {
      r := ReplyAt(session, readCount);
      readCount := readCount + 1;
    }

    method Write(frame: string) returns (ok: bool)
      modifies this`writeCount, net`sent
      ensures ok == WriteSucceeds(session, old(writeCount)) && writeCount == old(writeCount) + 1
      ensures net.sent == old(net.sent) + [frame]
    {
      ok := WriteSucceeds(session, writeCount);
      writeCount := writeCount + 1;
      net.sent := net.sent + [frame];
    }
  }

  /** send: writes one command with its CRLF terminator. */
  method Send(conn: Conn, msg: string) returns (ok: bool)
    modifies conn`writeCount, conn.net`sent
    ensures ok == WriteSucceeds(conn.session, old(conn.writeCount))
    ensures conn.writeCount == old(conn.writeCount) + 1
    ensures conn.net.sent == old(conn.net.sent) + [msg + "\r\n"]
  {
    ok := conn.Write(msg + "\r\n");
  }

  // ---------------------------------------------------------------------
  // Reply parsing and classification

  datatype Response = Response(code: int, message: string)

  /** readResponse: the leading integer of the line and the trimmed text
      after its first four characters; code 0 when the read fails, the
      line is shorter than three characters or has no leading integer. */
  function ReadResponse(r: Reply): (resp: Response)
    ensures r.ReadFailed? ==> resp == Response(0, "")
    ensures resp.code != 0 ==> r.Line? && |r.text| >= 3 && ScanInt(r.text) == Some(resp.code)
    ensures r.Line? && ScanInt(r.text).None? ==> resp == Response(0, r.text)
    ensures r.Line? && |r.text| < 3 ==> resp == Response(0, r.text)
    ensures r.Line? && |r.text| >= 3 && ScanInt(r.text).Some? ==>
      resp == Response(ScanInt(r.text).value, if |r.text| > 4 then TrimSpace(r.text[4..]) else "")
  {
    match r
    case ReadFailed => Response(0, "")
    case Line(text) =>
      if |text| < 3 then Response(0, text)
      else
        match ScanInt(text)
        case None => Response(0, text)
        case Some(code) => Response(code, if |text| > 4 then TrimSpace(text[4..]) else "")
  }

  lemma ThreeDigits(code: int)
    requires 100 <= code <= 999
    ensures |IntToString(code)| == 3
  {
    assert NatToString(code) == NatToString(code / 10) + [DigitChar(code % 10)];
    assert NatToString(code / 10) == NatToString(code / 100) + [DigitChar(code / 10 % 10)];
  }

  /** A well-formed reply line "<3-digit code> <text>" is read back as
      that code and the trimmed text. */
  lemma ReadResponseOfReplyLine(code: int, text: string)
    requires 100 <= code <= 999
    ensures ReadResponse(Line(IntToString(code) + " " + text)) == Response(code, TrimSpace(text))
  {
    var line := IntToString(code) + " " + text;
    ThreeDigits(code);
    assert line == IntToString(code) + (" " + text);
    ScanIntToString(code, " " + text);
    if |line| > 4 {
      assert line[4..] == text;
    } else {
      assert text == [];
    }
  }

  /** analyzeSMTPResponse: only 2xx confirms, only 550, 551 and 553
      reject; everything else is risky, with a reason that depends on the
      code's class.  The code is carried over unchanged. */
  function AnalyzeSMTPResponse(email: string, code: int, msg: string): (r: SMTPResult)
    ensures r.code == code && r.status != Unknown
    ensures r.status == Valid <==> 200 <= code <= 299
    ensures r.status == Invalid <==> code == 550 || code == 551 || code == 553
    ensures r.status == Valid ==> r.reason == "Mailbox confirmed"
    ensures r.status == Invalid ==> r.reason == "Mailbox does not exist"
    ensures code == 552 ==> r.reason == "Mailbox full or over quota"
    ensures code >= 500 && code !in {550, 551, 552, 553} ==>
      r.reason == "Server rejected the request: " + IntToString(code) + " " + msg
    ensures 400 <= code < 500 ==> r.reason == "Greylisted or temporary server issue"
    ensures code < 400 && !(200 <= code <= 299) ==>
      r.reason == "Unknown SMTP response: " + IntToString(code) + " " + msg
  {
    if 200 <= code <= 299 then SMTPResult(Valid, "Mailbox confirmed", code)
    else if code == 550 || code == 551 || code == 553 then SMTPResult(Invalid, "Mailbox does not exist", code)
    else if code == 552 then SMTPResult(Risky, "Mailbox full or over quota", code)
    else if code >= 500 then
      SMTPResult(Risky, "Server rejected the request: " + IntToString(code) + " " + msg, code)
    else if code >= 400 then SMTPResult(Risky, "Greylisted or temporary server issue", code)
    else SMTPResult(Risky, "Unknown SMTP response: " + IntToString(code) + " " + msg, code)
  }

  // ---------------------------------------------------------------------
  // One server: the handshake

  predicate Positive(code: int) {
    200 <= code < 300
  }

  /** Replies k up to 2 are all 2xx and commands k up to 2 are all
      written, so the handshake goes on to the RCPT TO reply. */
  predicate Accepted(s: Session, k: nat)
    requires k <= 3
    decreases 3 - k
  {
    k == 3 || (Positive(ReadResponse(ReplyAt(s, k)).code) && WriteSucceeds(s, k) && Accepted(s, k + 1))
  }

  /** The handshake got as far as a successfully written RCPT TO. */
  predicate ReachesRecipient(s: Session) {
    s.reachable && Accepted(s, 0)
  }

  /** The classification of the reply to RCPT TO. */
  function RcptResult(email: string, s: Session): SMTPResult {
    var rcpt := ReadResponse(ReplyAt(s, 3));
    AnalyzeSMTPResponse(email, rcpt.code, rcpt.message)
  }

  /** What one probe yields, and how many of the four commands of
      ProbeCommands it writes. */
  datatype Probe = Probe(result: SMTPResult, written: nat)

  /** The reason prefix when reply k (greeting, HELO, MAIL FROM) is not 2xx. */
  function RejectedStep(k: nat): string
    requires k < 3
  {
    ["Server greeting failed", "HELO command rejected", "MAIL FROM command rejected"][k]
  }

  /** The reason when writing command k (HELO, MAIL FROM, RCPT TO) fails. */
  function FailedCommand(k: nat): string
    requires k < 3
  {
    ["HELO command failed", "MAIL FROM command failed", "RCPT TO command failed"][k]
  }

  /** A risky result for a step whose reply was not 2xx, carrying that reply's code. */
  function StepRejected(step: string, resp: Response): SMTPResult {
    SMTPResult(Risky, step + ": " + IntToString(resp.code) + " " + resp.message, resp.code)
  }

  /** The handshake from reply k on (0 greeting, 1 HELO, 2 MAIL FROM,
      3 RCPT TO): a reply that is not 2xx or a failed write stops it with a
      risky result and nothing more is written; the RCPT TO reply is
      classified whatever it is, after QUIT has been written. */
  function Handshake(email: string, s: Session, k: nat): (p: Probe)
    requires k <= 3
    ensures p.result.status != Unknown
    ensures k <= p.written <= 4
    ensures p.written < 4 ==> p.result.status == Risky && (p.result.code == 0 || !Positive(p.result.code))
    decreases 3 - k
  {
    var resp := ReadResponse(ReplyAt(s, k));
    if k == 3 then Probe(AnalyzeSMTPResponse(email, resp.code, resp.message), 4)
    else if !Positive(resp.code) then Probe(StepRejected(RejectedStep(k), resp), k)
    else if !WriteSucceeds(s, k) then Probe(SMTPResult(Risky, FailedCommand(k), 0), k + 1)
    else Handshake(email, s, k + 1)
  }

  /** checkSMTPServer as a function of the server's behaviour: a server
      that cannot be dialed is risky and nothing is written; otherwise the
      handshake decides.  Only a server that accepts HELO, MAIL FROM and
      the RCPT TO write can give a definitive answer, and then it is the
      classification of the RCPT TO reply. */
  function ProbeServer(email: string, host: string, s: Session): (p: Probe)
    ensures p.result.status != Unknown && p.written <= 4
    ensures !s.reachable ==>
      p == Probe(SMTPResult(Risky, "Could not connect to SMTP server " + host, 0), 0)
  {
    if !s.reachable then Probe(SMTPResult(Risky, "Could not connect to SMTP server " + host, 0), 0)
    else Handshake(email, s, 0)
  }

  /** The handshake from reply k reaches the RCPT TO reply exactly when
      replies k up to 2 are accepted, and then gives its classification
      with all four commands written; otherwise it stops risky, short of
      QUIT. */
  lemma {:induction false} HandshakeOutcome(email: string, s: Session, k: nat)
    requires k <= 3
    ensures Accepted(s, k) ==> Handshake(email, s, k) == Probe(RcptResult(email, s), 4)
    ensures !Accepted(s, k) ==>
      && Handshake(email, s, k).result.status == Risky
      && Handshake(email, s, k).written <= 3
    decreases 3 - k
  {
    if k < 3 {
      HandshakeOutcome(email, s, k + 1);
    }
  }

  /** The first step j at or after k that goes wrong decides how the
      handshake from k stops: a reply that is not 2xx stops it with
      "<step>: <code> <text>" and that reply's code, before command j is
      written; a failed write of command j stops it with "<command> command
      failed" and code 0, after that write. */
  lemma {:induction false} HandshakeStopsAt(email: string, s: Session, k: nat, j: nat)
    requires k <= j < 3
    requires forall i :: k <= i < j ==> Positive(ReadResponse(ReplyAt(s, i)).code) && WriteSucceeds(s, i)
    ensures !Positive(ReadResponse(ReplyAt(s, j)).code) ==>
      Handshake(email, s, k) == Probe(StepRejected(RejectedStep(j), ReadResponse(ReplyAt(s, j))), j)
    ensures Positive(ReadResponse(ReplyAt(s, j)).code) && !WriteSucceeds(s, j) ==>
      Handshake(email, s, k) == Probe(SMTPResult(Risky, FailedCommand(j), 0), j + 1)
    decreases j - k
  {
    if k < j {
      HandshakeStopsAt(email, s, k + 1, j);
    }
  }

  /** Only a server that accepts HELO, MAIL FROM and the RCPT TO write can
      give a definitive answer, and then the answer is the classification
      of the RCPT TO reply; every other server is risky, with code 0 or a
      non-2xx code, and is never sent QUIT. */
  lemma ProbeServerOutcome(email: string, host: string, s: Session)
    ensures Definitive(ProbeServer(email, host, s).result) ==> ReachesRecipient(s)
    ensures ReachesRecipient(s) ==> ProbeServer(email, host, s) == Probe(RcptResult(email, s), 4)
    ensures !ReachesRecipient(s) ==>
      && ProbeServer(email, host, s).result.status == Risky
      && (ProbeServer(email, host, s).result.code == 0 || !Positive(ProbeServer(email, host, s).result.code))
      && ProbeServer(email, host, s).written <= 3
  {
    if s.reachable {
      HandshakeOutcome(email, s, 0);
    }
  }

  /** Only replies k up to 3 and writes k up to 2 matter to the handshake
      from reply k on. */
  lemma {:induction false} HandshakeIgnoresLater(email: string, s: Session, t: Session, k: nat)
    requires k <= 3
    requires forall i :: k <= i < 4 ==> ReplyAt(s, i) == ReplyAt(t, i)
    requires forall i :: k <= i < 3 ==> WriteSucceeds(s, i) == WriteSucceeds(t, i)
    ensures Handshake(email, s, k) == Handshake(email, t, k)
    decreases 3 - k
  {
    assert ReplyAt(s, k) == ReplyAt(t, k);
    if k < 3 {
      assert WriteSucceeds(s, k) == WriteSucceeds(t, k);
      HandshakeIgnoresLater(email, s, t, k + 1);
    }
  }

  /** The outcome of the QUIT write, and every line or write after it,
      never matter. */
  lemma ProbeIgnoresQuit(email: string, host: string, s: Session, t: Session)
    requires s.reachable == t.reachable
    requires forall i :: 0 <= i < 4 ==> ReplyAt(s, i) == ReplyAt(t, i)
    requires forall i :: 0 <= i < 3 ==> WriteSucceeds(s, i) == WriteSucceeds(t, i)
    ensures ProbeServer(email, host, s) == ProbeServer(email, host, t)
  {
    HandshakeIgnoresLater(email, s, t, 0);
  }

  /** A server that answers every step with a well-formed line, accepts
      the greeting, HELO and MAIL FROM with 2xx codes and takes every
      write is judged by the code and trimmed text of its RCPT TO line. */
  lemma ProbeOfCooperativeServer(email: string, host: string, s: Session, codes: seq<int>, texts: seq<string>)
    requires s.reachable && |codes| == 4 && |texts| == 4
    requires forall i :: 0 <= i < 4 ==> 100 <= codes[i] <= 999
    requires forall i :: 0 <= i < 4 ==> ReplyAt(s, i) == Line(IntToString(codes[i]) + " " + texts[i])
    requires forall i :: 0 <= i < 3 ==> Positive(codes[i]) && WriteSucceeds(s, i)
    ensures ProbeServer(email, host, s)
      == Probe(AnalyzeSMTPResponse(email, codes[3], TrimSpace(texts[3])), 4)
  {
    forall i | 0 <= i < 4
      ensures ReadResponse(ReplyAt(s, i)) == Response(codes[i], TrimSpace(texts[i]))
    {
      ReadResponseOfReplyLine(codes[i], texts[i]);
    }
    assert WriteSucceeds(s, 2) && Positive(codes[2]);
    assert Accepted(s, 2);
    assert WriteSucceeds(s, 1) && Positive(codes[1]);
    assert Accepted(s, 1);
    assert WriteSucceeds(s, 0) && Positive(codes[0]);
    assert Accepted(s, 0);
  }

  /** Writing command k extends the transcript from k by its frame. */
  lemma FramesFrom(commands: seq<string>, k: nat, w: nat)
    requires k < w <= |commands|
    ensures Frames(commands[k..w]) == [commands[k] + "\r\n"] + Frames(commands[k + 1..w])
  {
    assert commands[k + 1..w] == commands[k..w][1..];
  }

  /** When the handshake goes past step k, what it writes from k on is
      command k followed by what it writes from k + 1 on. */
  lemma ContinuedFrames(email: string, s: Session, k: nat)
    requires k < 3 && Handshake(email, s, k) == Handshake(email, s, k + 1)
    ensures Frames(ProbeCommands(email)[k..Handshake(email, s, k).written])
      == [ProbeCommands(email)[k] + "\r\n"] + Frames(ProbeCommands(email)[k + 1..Handshake(email, s, k + 1).written])
  {
    FramesFrom(ProbeCommands(email), k, Handshake(email, s, k).written);
  }

  /** The dialogue on an open connection from reply k on: read reply k; the
      RCPT TO reply (k = 3) is followed by QUIT and classified; an earlier
      reply that is not 2xx, or a failed write of command k, ends it. */
  method Converse(email: string, conn: Conn, k: nat) returns (r: SMTPResult)
    requires k <= 3 && conn.readCount == k && conn.writeCount == k
    modifies conn`readCount, conn`writeCount, conn.net`sent
    ensures r == Handshake(email, conn.session, k).result
    ensures conn.net.sent == old(conn.net.sent)
      + Frames(ProbeCommands(email)[k..Handshake(email, conn.session, k).written])
    decreases 3 - k
  {
    if k == 3 {
      r := FinishProbe(email, conn);
      return;
    }
    var stop;
    stop, r := ProbeStep(email, conn, k);
    if !stop {
      ContinuedFrames(email, conn.session, k);
      r := Converse(email, conn, k + 1);
    }
  }

  /** One step before RCPT TO: read reply k and, when it is 2xx, write
      command k.  Either the handshake stops here, with its result and
      what it wrote, or it goes on with reply k + 1 after command k was
      written. */
  method ProbeStep(email: string, conn: Conn, k: nat) returns (stop: bool, r: SMTPResult)
    requires k < 3 && conn.readCount == k && conn.writeCount == k
    modifies conn`readCount, conn`writeCount, conn.net`sent
    ensures conn.readCount == k + 1
    ensures stop ==> r == Handshake(email, conn.session, k).result
    ensures stop ==> conn.net.sent == old(conn.net.sent)
                     + Frames(ProbeCommands(email)[k..Handshake(email, conn.session, k).written])
    ensures !stop ==> Handshake(email, conn.session, k) == Handshake(email, conn.session, k + 1)
    ensures !stop ==> conn.writeCount == k + 1
    ensures !stop ==> conn.net.sent == old(conn.net.sent) + [ProbeCommands(email)[k] + "\r\n"]
  {
    var line := conn.ReadLine();
    var resp := ReadResponse(line);
    if resp.code < 200 || resp.code >= 300 {
      assert ProbeCommands(email)[k..k] == [];
      return true, StepRejected(RejectedStep(k), resp);
    }
    var ok := Send(conn, ProbeCommands(email)[k]);
    if !ok {
      assert ProbeCommands(email)[k..k + 1] == [ProbeCommands(email)[k]];
      return true, SMTPResult(Risky, FailedCommand(k), 0);
    }
    return false, SMTPResult(Unknown, "", 0);
  }

  /** The last step: read the RCPT TO reply, write QUIT and ignore how
      that write went, then classify the reply. */
  method FinishProbe(email: string, conn: Conn) returns (r: SMTPResult)
    requires conn.readCount == 3 && conn.writeCount == 3
    modifies conn`readCount, conn`writeCount, conn.net`sent
    ensures r == Handshake(email, conn.session, 3).result
    ensures conn.net.sent == old(conn.net.sent) + Frames(ProbeCommands(email)[3..4])
  {
    var line := conn.ReadLine();
    var resp := ReadResponse(line);
    // The outcome of QUIT is not looked at.
    var _ := Send(conn, QuitCommand);
    FramesFrom(ProbeCommands(email), 3, 4);
    assert ProbeCommands(email)[4..4] == [];
    return AnalyzeSMTPResponse(email, resp.code, resp.message);
  }

  /** checkSMTPServer. */
  method CheckSMTPServer(email: string, host: string, net: Network) returns (r: SMTPResult)
    modifies net`dialed, net`sent
    ensures r == ProbeServer(email, host, SessionAt(net.sessions, ServerAddress(host))).result
    ensures net.dialed == old(net.dialed) + [ServerAddress(host)]
    ensures net.sent == old(net.sent)
      + Frames(ProbeCommands(email)[..ProbeServer(email, host, SessionAt(net.sessions, ServerAddress(host))).written])
  {
    var conn := net.DialTimeout(ServerAddress(host));
    if conn == null {
      assert ProbeCommands(email)[..0] == [];
      return SMTPResult(Risky, "Could not connect to SMTP server " + host, 0);
    }
    r := Converse(email, conn, 0);
    assert ProbeCommands(email)[0..Handshake(email, conn.session, 0).written]
      == ProbeCommands(email)[..Handshake(email, conn.session, 0).written];
  }

  // ---------------------------------------------------------------------
  // All servers: the fallback

  const NoServers := SMTPResult(Invalid, "No SMTP servers found for the domain", 0)
  const AllUncertain := SMTPResult(Risky, "All SMTP servers returned uncertain results", 0)

  function ProbeAt(email: string, sessions: map<string, Session>, server: MX): Probe {
    ProbeServer(email, server.host, SessionAt(sessions, ServerAddress(server.host)))
  }

  /** Probes servers in order until one answers definitively. */
  function Fallback(email: string, servers: seq<MX>, sessions: map<string, Session>): (r: SMTPResult)
    ensures Definitive(r) || r == AllUncertain
    decreases |servers|
  {
    if servers == [] then AllUncertain
    else
      var r := ProbeAt(email, sessions, servers[0]).result;
      if Definitive(r) then r else Fallback(email, servers[1..], sessions)
  }

  /** How many servers the fallback dials. */
  function Probed(email: string, servers: seq<MX>, sessions: map<string, Session>): (n: nat)
    ensures n <= |servers|
    ensures servers != [] ==> n > 0
    decreases |servers|
  {
    if servers == [] then 0
    else if Definitive(ProbeAt(email, sessions, servers[0]).result) then 1
    else 1 + Probed(email, servers[1..], sessions)
  }

  /** CheckSMTP as a function of the servers' behaviour. */
  function SMTPVerdict(email: string, servers: seq<MX>, sessions: map<string, Session>): (r: SMTPResult)
    ensures r.status != Unknown
    ensures servers == [] ==> r == NoServers
    ensures servers != [] ==> Definitive(r) || r == AllUncertain
  {
    if servers == [] then NoServers else Fallback(email, servers, sessions)
  }

  /** The first definitive answer, in list order, is the verdict, and no
      server after it is dialed. */
  lemma {:induction false} FallbackFirstDefinitive(email: string, servers: seq<MX>, sessions: map<string, Session>, i: nat)
    requires i < |servers|
    requires Definitive(ProbeAt(email, sessions, servers[i]).result)
    requires forall j :: 0 <= j < i ==> !Definitive(ProbeAt(email, sessions, servers[j]).result)
    ensures Fallback(email, servers, sessions) == ProbeAt(email, sessions, servers[i]).result
    ensures Probed(email, servers, sessions) == i + 1
    decreases i
  {
    if i > 0 {
      assert !Definitive(ProbeAt(email, sessions, servers[0]).result);
      FallbackFirstDefinitive(email, servers[1..], sessions, i - 1);
    }
  }

  /** With no definitive answer every server is dialed and the verdict is
      the fixed uncertain result. */
  lemma {:induction false} FallbackAllUncertain(email: string, servers: seq<MX>, sessions: map<string, Session>)
    requires forall j :: 0 <= j < |servers| ==> !Definitive(ProbeAt(email, sessions, servers[j]).result)
    ensures Fallback(email, servers, sessions) == AllUncertain
    ensures Probed(email, servers, sessions) == |servers|
    decreases |servers|
  {
    if servers != [] {
      assert !Definitive(ProbeAt(email, sessions, servers[0]).result);
      FallbackAllUncertain(email, servers[1..], sessions);
    }
  }

  /** A definitive verdict is exactly some server's own answer, and every
      server before it was uncertain. */
  lemma {:induction false} FallbackDefinitiveComesFromAServer(email: string, servers: seq<MX>, sessions: map<string, Session>)
    requires Definitive(Fallback(email, servers, sessions))
    ensures Probed(email, servers, sessions) > 0
    ensures var i := Probed(email, servers, sessions) - 1;
      && i < |servers|
      && Fallback(email, servers, sessions) == ProbeAt(email, sessions, servers[i]).result
      && forall j :: 0 <= j < i ==> !Definitive(ProbeAt(email, sessions, servers[j]).result)
    decreases |servers|
  {
    if !Definitive(ProbeAt(email, sessions, servers[0]).result) {
      FallbackDefinitiveComesFromAServer(email, servers[1..], sessions);
      var i := Probed(email, servers[1..], sessions) - 1;
      forall j | 0 <= j < i + 1
        ensures !Definitive(ProbeAt(email, sessions, servers[j]).result)
      {
        if j > 0 {
          assert servers[j] == servers[1..][j - 1];
        }
      }
    }
  }

  /** The addresses dialed while probing `servers` one after the other. */
  function Addresses(servers: seq<MX>): seq<string> {
    if servers == [] then [] else Addresses(servers[..|servers| - 1]) + [ServerAddress(servers[|servers| - 1].host)]
  }

  /** Every frame written while probing `servers` one after the other. */
  function Transcript(email: string, servers: seq<MX>, sessions: map<string, Session>): seq<string>
    decreases |servers|
  {
    if servers == [] then []
    else
      Transcript(email, servers[..|servers| - 1], sessions)
        + Frames(ProbeCommands(email)[..ProbeAt(email, sessions, servers[|servers| - 1]).written])
  }

  /** Probing one more server appends its address to the dial log. */
  lemma AddressesStep(servers: seq<MX>, i: nat, log: seq<string>)
    requires i < |servers|
    ensures log + Addresses(servers[..i + 1]) == log + Addresses(servers[..i]) + [ServerAddress(servers[i].host)]
  {
    assert servers[..i + 1][..i] == servers[..i];
  }

  /** Probing one more server appends its frames to the transcript. */
  lemma TranscriptStep(email: string, servers: seq<MX>, sessions: map<string, Session>, i: nat, log: seq<string>)
    requires i < |servers|
    ensures log + Transcript(email, servers[..i + 1], sessions) == log + Transcript(email, servers[..i], sessions)
      + Frames(ProbeCommands(email)[..ProbeAt(email, sessions, servers[i]).written])
  {
    assert servers[..i + 1][..i] == servers[..i];
  }

  /** CheckSMTP: an empty server list is invalid without any probing;
      otherwise the servers are probed in order until the first definitive
      answer. */
  method CheckSMTP(email: string, servers: seq<MX>, net: Network) returns (r: SMTPResult)
    modifies net`dialed, net`sent
    ensures r == SMTPVerdict(email, servers, net.sessions)
    ensures servers != [] ==>
      var n := Probed(email, servers, net.sessions);
      net.dialed == old(net.dialed) + Addresses(servers[..n])
      && net.sent == old(net.sent) + Transcript(email, servers[..n], net.sessions)
    ensures servers == [] ==> net.dialed == old(net.dialed) && net.sent == old(net.sent)
  {
    if |servers| == 0 {
      return NoServers;
    }

    var i := 0;
    while i < |servers|
      invariant 0 <= i <= |servers|
      invariant Fallback(email, servers, net.sessions) == Fallback(email, servers[i..], net.sessions)
      invariant Probed(email, servers, net.sessions) == i + Probed(email, servers[i..], net.sessions)
      invariant net.dialed == old(net.dialed) + Addresses(servers[..i])
      invariant net.sent == old(net.sent) + Transcript(email, servers[..i], net.sessions)
    {
      var result := CheckSMTPServer(email, servers[i].host, net);
      assert servers[i..][0] == servers[i] && servers[i..][1..] == servers[i + 1..];
      AddressesStep(servers, i, old(net.dialed));
      TranscriptStep(email, servers, net.sessions, i, old(net.sent));
      if Definitive(result) {
        return result;
      }
      i := i + 1;
    }

    assert servers[..|servers|] == servers;
    r := AllUncertain;
  }
}
